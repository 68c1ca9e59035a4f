/**
 * Calendar arithmetic behind the pages' `Date` objects: the Gregorian
 * leap-year rule, the length of a month, day numbers (days since 0000-01-01,
 * proleptic Gregorian), the `YYYY-MM-DD` strings that `toISOString()` and the
 * date inputs produce, and the `YYYY-MM` month key built by the reports and
 * settings pages.  Months are 0-based (`month0`, as `getMonth()` returns
 * them) except in `Date`, whose `month` is the 1-based number written in the
 * ISO string.
 */
module Calendar {
  import opened Wrappers
  import opened Text

  predicate IsLeapYear(year: int)
  {
    year % 4 == 0 && (year % 100 != 0 || year % 400 == 0)
  }

  /** `new Date(year, month0 + 1, 0).getDate()`: the last day of the month. */
  function DaysInMonth(year: int, month0: int): (n: int)
    requires 0 <= month0 < 12
    ensures 28 <= n <= 31
    ensures n == 29 <==> month0 == 1 && IsLeapYear(year)
    ensures n == 28 <==> month0 == 1 && !IsLeapYear(year)
    ensures n == 30 <==> month0 in {3, 5, 8, 10}
  {
    if month0 == 1 then (if IsLeapYear(year) then 29 else 28)
    else if month0 in {3, 5, 8, 10} then 30
    else 31
  }

  function YearLength(year: int): int
  {
    if IsLeapYear(year) then 366 else 365
  }

  /** The number of leap years in [0, year) (negative for negative years). */
  function LeapYearsBefore(year: int): int
  {
    (year + 3) / 4 - (year + 99) / 100 + (year + 399) / 400
  }

  /**
   * The year `new Date(year, month, day)` builds: a year of 0..99 is read as
   * 1900 + year, any other year is kept.  The constructor never yields a
   * year in 0..99.
   */
  function FullYear(year: int): (y: int)
    ensures !(0 <= y <= 99)
    ensures year < 0 || year > 99 ==> y == year
    ensures 0 <= year <= 99 ==> 1900 <= y <= 1999 && y % 100 == year
  {
    if 0 <= year <= 99 then 1900 + year else year
  }

  /** Day number of January 1st of `year`. */
  function YearStart(year: int): int
  {
    365 * year + LeapYearsBefore(year)
  }

  /** Days in the months of `year` before `month0`. */
  function DaysBeforeMonth(year: int, month0: int): int
    requires 0 <= month0 < 12
  {
    [0, 31, 59, 90, 120, 151, 181, 212, 243, 273, 304, 334][month0]
      + (if month0 >= 2 && IsLeapYear(year) then 1 else 0)
  }

  /** Day number of `new Date(year, month0, 1)`. */
  function MonthStart(year: int, month0: int): int
    requires 0 <= month0 < 12
  {
    YearStart(year) + DaysBeforeMonth(year, month0)
  }

  /** Day number of `new Date(year, month0 + 1, 0)`, the month's last day. */
  function MonthEnd(year: int, month0: int): int
    requires 0 <= month0 < 12
  {
    MonthStart(year, month0) + DaysInMonth(year, month0) - 1
  }

  /** One more year adds a multiple of `k` exactly when `year` is one. */
  lemma CountStep(year: int, k: int, q: int, q': int)
    requires k == 4 || k == 100 || k == 400
    requires q == (year + k - 1) / k && q' == (year + k) / k
    ensures q' == q + (if year % k == 0 then 1 else 0)
  {
    if k == 4 {
      assert q == (year + 3) / 4 && q' == (year + 4) / 4;
    } else if k == 100 {
      assert q == (year + 99) / 100 && q' == (year + 100) / 100;
    } else {
      assert q == (year + 399) / 400 && q' == (year + 400) / 400;
    }
  }

  /** Consecutive years are `YearLength` days apart. */
  lemma YearStartStep(year: int)
    ensures YearStart(year + 1) == YearStart(year) + YearLength(year)
  {
    CountStep(year, 4, (year + 3) / 4, (year + 4) / 4);
    CountStep(year, 100, (year + 99) / 100, (year + 100) / 100);
    CountStep(year, 400, (year + 399) / 400, (year + 400) / 400);
    Divisibility(year);
  }

  /** Multiples of 400 are multiples of 100, and those are multiples of 4. */
  lemma Divisibility(year: int)
    ensures year % 400 == 0 ==> year % 100 == 0
    ensures year % 100 == 0 ==> year % 4 == 0
  {
    if year % 400 == 0 { MultipleOf400(year); }
    if year % 100 == 0 { MultipleOf100(year); }
  }

  lemma MultipleOf400(year: int)
    requires year % 400 == 0
    ensures year % 100 == 0
  {
    var q := year / 400;
    assert year == 400 * q;
    assert year == 100 * (4 * q);
  }

  lemma MultipleOf100(year: int)
    requires year % 100 == 0
    ensures year % 4 == 0
  {
    var q := year / 100;
    assert year == 100 * q;
    assert year == 4 * (25 * q);
  }

  /**
   * The months tile the calendar: the day after a month's last day is the
   * first day of the following month, December rolling over into January of
   * the next year.  This is the sense in which `new Date(y, m + 1, 0)` is the
   * last day of month m.
   */
  lemma MonthsTile(year: int, month0: int)
    requires 0 <= month0 < 12
    ensures month0 < 11 ==> MonthEnd(year, month0) + 1 == MonthStart(year, month0 + 1)
    ensures month0 == 11 ==> MonthEnd(year, month0) + 1 == MonthStart(year + 1, 0)
  {
    if month0 == 11 {
      YearStartStep(year);
    }
  }

  /** A calendar date as written `YYYY-MM-DD`; `month` is 1-based. */
  datatype Date = Date(year: int, month: int, day: int)

  /** A real calendar day with a four-digit year, as date inputs and `toISOString()` produce. */
  predicate ValidDate(d: Date)
  {
    0 <= d.year <= 9999 && 1 <= d.month <= 12 && 1 <= d.day <= DaysInMonth(d.year, d.month - 1)
  }

  type CalendarDate = d: Date | ValidDate(d) witness Date(1970, 1, 1)

  /** Day number of a date: `getTime()` divided by the length of a day. */
  function DayNumber(d: CalendarDate): (n: int)
    ensures MonthStart(d.year, d.month - 1) <= n <= MonthEnd(d.year, d.month - 1)
  {
    MonthStart(d.year, d.month - 1) + d.day - 1
  }

  predicate DateBefore(a: Date, b: Date)
  {
    a.year < b.year || (a.year == b.year && (a.month < b.month || (a.month == b.month && a.day < b.day)))
  }

  lemma {:induction false} MonthStartMonotone(year: int, m: int, n: int)
    requires 0 <= m < n < 12
    ensures MonthEnd(year, m) < MonthStart(year, n)
    decreases n - m
  {
    MonthsTile(year, m);
    if m + 1 < n { MonthStartMonotone(year, m + 1, n); }
  }

  /** A date's day number lies within its year. */
  lemma DayInYear(d: CalendarDate)
    ensures YearStart(d.year) <= DayNumber(d) < YearStart(d.year + 1)
  {
    if d.month < 12 { MonthStartMonotone(d.year, d.month - 1, 11); }
    MonthsTile(d.year, 11);
  }

  lemma {:induction false} YearStartMonotone(y: int, z: int)
    requires y < z
    ensures YearStart(y + 1) <= YearStart(z)
    decreases z - y
  {
    if y + 1 < z {
      YearStartStep(y + 1);
      YearStartMonotone(y + 1, z);
    }
  }

  /** Day numbers order dates as the calendar does. */
  lemma DayNumberOrder(a: CalendarDate, b: CalendarDate)
    ensures DayNumber(a) < DayNumber(b) <==> DateBefore(a, b)
  {
    if a.year < b.year {
      EarlierYear(a, b);
    } else if b.year < a.year {
      EarlierYear(b, a);
    } else if a.month < b.month {
      EarlierMonth(a, b);
    } else if b.month < a.month {
      EarlierMonth(b, a);
    }
  }

  lemma EarlierYear(a: CalendarDate, b: CalendarDate)
    requires a.year < b.year
    ensures DayNumber(a) < DayNumber(b)
  {
    DayInYear(a);
    DayInYear(b);
    YearStartMonotone(a.year, b.year);
  }

  lemma EarlierMonth(a: CalendarDate, b: CalendarDate)
    requires a.year == b.year && a.month < b.month
    ensures DayNumber(a) < DayNumber(b)
  {
    MonthStartMonotone(a.year, a.month - 1, b.month - 1);
  }

  /** `toISOString().split("T")[0]`, and the value of a date input. */
  function FormatIsoDate(d: CalendarDate): (s: string)
    ensures |s| == 10 && s[4] == '-' && s[7] == '-'
  {
    Digits(d.year, 4) + "-" + Digits(d.month, 2) + "-" + Digits(d.day, 2)
  }

  /**
   * `new Date(s)` for a date-only string: `Some` for a `YYYY-MM-DD` string
   * naming a real day, `None` (an Invalid Date) for anything else.
   */
  function ParseIsoDate(s: string): (r: Option<CalendarDate>)
  {
    if |s| == 10 && s[4] == '-' && s[7] == '-'
       && AllDigits(s[..4]) && AllDigits(s[5..7]) && AllDigits(s[8..])
    then
      var d := Date(DigitsValue(s[..4]), DigitsValue(s[5..7]), DigitsValue(s[8..]));
      if ValidDate(d) then Some(d) else None
    else None
  }

  /** Formatting then parsing gives the date back. */
  lemma ParseFormat(d: CalendarDate)
    ensures ParseIsoDate(FormatIsoDate(d)) == Some(d)
  {
    var s := FormatIsoDate(d);
    assert s[..4] == Digits(d.year, 4) && s[5..7] == Digits(d.month, 2) && s[8..] == Digits(d.day, 2);
    DigitsRoundTrip(d.year, 4);
    DigitsRoundTrip(d.month, 2);
    DigitsRoundTrip(d.day, 2);
  }

  /** Every string that parses is the formatted form of its date. */
  lemma FormatParse(s: string)
    requires ParseIsoDate(s).Some?
    ensures FormatIsoDate(ParseIsoDate(s).value) == s
  {
    ValueRoundTrip(s[..4]);
    ValueRoundTrip(s[5..7]);
    ValueRoundTrip(s[8..]);
    assert s == s[..4] + "-" + s[5..7] + "-" + s[8..];
  }

  /** `` `${year}-${String(month0 + 1).padStart(2, "0")}` `` */
  function MonthKey(year: int, month0: int): (k: string)
    requires 0 <= month0 < 12
    ensures |k| == |DecimalString(year)| + 3 && k[|k| - 3] == '-'
  {
    DecimalString(year) + "-" + PadStart2(DecimalString(month0 + 1))
  }

  /** For a four-digit year the key is `YYYY-MM`, the first seven characters of an ISO date. */
  lemma MonthKeyDigits(year: int, month0: int)
    requires 0 <= month0 < 12 && 1000 <= year <= 9999
    ensures MonthKey(year, month0) == Digits(year, 4) + "-" + Digits(month0 + 1, 2)
  {
    DecimalStringIsDigits(year, 4);
    if month0 + 1 < 10 {
      DecimalStringIsDigits(month0 + 1, 1);
      assert PadStart2(DecimalString(month0 + 1)) == Digits(month0 + 1, 2);
    } else {
      DecimalStringIsDigits(month0 + 1, 2);
    }
  }

  /** Fixed-width digit strings compare and coincide as their values do. */
  lemma DigitsOrder(a: nat, b: nat, w: nat)
    requires a < Pow10(w) && b < Pow10(w)
    ensures LexLe(Digits(a, w), Digits(b, w)) <==> a <= b
    ensures Digits(a, w) == Digits(b, w) <==> a == b
  {
    var p, q := Digits(a, w), Digits(b, w);
    DigitsRoundTrip(a, w);
    DigitsRoundTrip(b, w);
    LexLeDigits(p, q);
    DigitsValueInjective(p, q);
  }

  /** Comparing `p-q` keys with equal-width parts compares `p` first, then `q`. */
  lemma KeyOrder(p1: string, q1: string, p2: string, q2: string)
    requires |p1| == |p2|
    ensures LexLe(p1 + "-" + q1, p2 + "-" + q2) <==> (p1 != p2 && LexLe(p1, p2)) || (p1 == p2 && LexLe(q1, q2))
  {
    assert p1 + "-" + q1 == p1 + ("-" + q1);
    assert p2 + "-" + q2 == p2 + ("-" + q2);
    LexLeConcat(p1, p2, "-" + q1, "-" + q2);
    LexLeConcat("-", "-", q1, q2);
  }

  /**
   * For four-digit years, comparing month keys as strings compares the
   * months chronologically: "the lexicographically last key" is "the most
   * recent month".
   */
  lemma MonthKeyOrder(y1: int, m1: int, y2: int, m2: int)
    requires 0 <= m1 < 12 && 0 <= m2 < 12
    requires 1000 <= y1 <= 9999 && 1000 <= y2 <= 9999
    ensures LexLe(MonthKey(y1, m1), MonthKey(y2, m2)) <==> y1 < y2 || (y1 == y2 && m1 <= m2)
  {
    MonthKeyDigits(y1, m1);
    MonthKeyDigits(y2, m2);
    DigitKeyOrder(y1, m1 + 1, y2, m2 + 1);
  }

  lemma DigitKeyOrder(y1: nat, n1: nat, y2: nat, n2: nat)
    requires y1 < 10000 && y2 < 10000 && n1 < 100 && n2 < 100
    ensures LexLe(Digits(y1, 4) + "-" + Digits(n1, 2), Digits(y2, 4) + "-" + Digits(n2, 2))
            <==> y1 < y2 || (y1 == y2 && n1 <= n2)
  {
    KeyOrder(Digits(y1, 4), Digits(n1, 2), Digits(y2, 4), Digits(n2, 2));
    assert Pow10(4) == 10000 && Pow10(2) == 100;
    DigitsOrder(y1, y2, 4);
    DigitsOrder(n1, n2, 2);
  }

  /** The first seven characters of a date string are its year and month. */
  lemma IsoYearMonth(s: string)
    requires ParseIsoDate(s).Some?
    ensures s[..7] == Digits(ParseIsoDate(s).value.year, 4) + "-" + Digits(ParseIsoDate(s).value.month, 2)
  {
    var d := ParseIsoDate(s).value;
    FormatParse(s);
    assert FormatIsoDate(d)[..7] == Digits(d.year, 4) + "-" + Digits(d.month, 2);
  }

  /** `YYYY-MM` strings of digits are equal exactly when their years and months are. */
  lemma DigitKeyEqual(y1: nat, n1: nat, y2: nat, n2: nat)
    requires y1 < 10000 && y2 < 10000 && n1 < 100 && n2 < 100
    ensures Digits(y1, 4) + "-" + Digits(n1, 2) == Digits(y2, 4) + "-" + Digits(n2, 2)
            <==> y1 == y2 && n1 == n2
  {
    var p1, q1, p2, q2 := Digits(y1, 4), Digits(n1, 2), Digits(y2, 4), Digits(n2, 2);
    var k1, k2 := p1 + "-" + q1, p2 + "-" + q2;
    assert k1[..4] == p1 && k1[5..] == q1;
    assert k2[..4] == p2 && k2[5..] == q2;
    assert Pow10(4) == 10000 && Pow10(2) == 100;
    DigitsOrder(y1, y2, 4);
    DigitsOrder(n1, n2, 2);
  }

  /**
   * For a string that parses as a date and a four-digit year, starting with
   * the month key is the same as falling in that month and year.
   */
  lemma PrefixSelectsMonth(s: string, year: int, month0: int)
    requires 0 <= month0 < 12 && 1000 <= year <= 9999
    requires ParseIsoDate(s).Some?
    ensures StartsWith(s, MonthKey(year, month0))
            <==> ParseIsoDate(s).value.year == year && ParseIsoDate(s).value.month == month0 + 1
  {
    var d := ParseIsoDate(s).value;
    var key := MonthKey(year, month0);
    MonthKeyDigits(year, month0);
    IsoYearMonth(s);
    assert |key| == 7;
    assert StartsWith(s, key) <==> s[..7] == key;
    DigitKeyEqual(d.year, d.month, year, month0 + 1);
  }
}
