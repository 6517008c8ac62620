/** The proleptic Gregorian calendar as ECMA-262 section 21.4.1 defines it
    for Date objects: day numbers count days since 1970-01-01, years come
    from the `DayFromYear` formula, months are numbered 0..11 and days of the
    month from 1. `MakeDay` accepts any month and day and rolls the excess
    forward, which is what `setDate` and `setMonth` rely on. */
module Calendar {

  /** Number of days in year `y` (section 21.4.1.3). */
  function DaysInYear(y: int): (n: int)
    ensures n == 365 || n == 366
  {
    if y % 4 != 0 then 365
    else if y % 100 != 0 then 366
    else if y % 400 != 0 then 365
    else 366
  }

  /** 1 in a leap year, 0 otherwise (`InLeapYear`). */
  function Leap(y: int): (l: int)
    ensures l == 0 || l == 1
  {
    DaysInYear(y) - 365
  }

  /** Day number of January 1 of year `y`: the years from 1970 up to `y`
      added (or, before 1970, the years from `y` up to 1970 subtracted).
      `DayFromYearIsFormula` shows that this is the closed form `DayFromYear`
      of section 21.4.1.3. */
  function DayFromYear(y: int): int
    decreases if y < 1970 then 1970 - y else y - 1970
  {
    if y == 1970 then 0
    else if y > 1970 then DayFromYear(y - 1) + DaysInYear(y - 1)
    else DayFromYear(y + 1) - DaysInYear(y)
  }

  /** Consecutive years are `DaysInYear` apart. */
  lemma DayFromYearNext(y: int)
    ensures DayFromYear(y + 1) == DayFromYear(y) + DaysInYear(y)
  {
    if y < 1969 {
      assert DayFromYear(y) == DayFromYear(y + 1) - DaysInYear(y);
    }
  }

  /** `DayFromYear(y) = 365 * (y - 1970) + floor((y - 1969) / 4)
      - floor((y - 1901) / 100) + floor((y - 1601) / 400)`; `/` is floor
      division here because every divisor is positive. */
  function DayFromYearFormula(y: int): int
  {
    365 * (y - 1970) + (y - 1969) / 4 - (y - 1901) / 100 + (y - 1601) / 400
  }

  /** Stepping the year by one adds a quadrennial leap day exactly when the
      new offset is a multiple of 4; likewise for 100 and 400. */
  lemma LeapStep4(y: int)
    ensures (y - 1968) / 4 - (y - 1969) / 4 == if y % 4 == 0 then 1 else 0
  {
    assert (y - 1968) % 4 == y % 4;
  }

  lemma LeapStep100(y: int)
    ensures (y - 1900) / 100 - (y - 1901) / 100 == if y % 100 == 0 then 1 else 0
  {
    assert (y - 1900) % 100 == y % 100;
  }

  lemma LeapStep400(y: int)
    ensures (y - 1600) / 400 - (y - 1601) / 400 == if y % 400 == 0 then 1 else 0
  {
    assert (y - 1600) % 400 == y % 400;
  }

  /** A multiple of 100 is a multiple of 4, and a multiple of 400 one of 100. */
  lemma CenturyDivisibility(y: int)
    ensures y % 100 == 0 ==> y % 4 == 0
    ensures y % 400 == 0 ==> y % 100 == 0
  {
    if y % 100 == 0 {
      CenturyLeap(y);
    }
    if y % 400 == 0 {
      QuadCentury(y);
    }
  }

  lemma CenturyLeap(y: int)
    requires y % 100 == 0
    ensures y % 4 == 0
  {
    var k := 25 * (y / 100);
    assert y == 4 * k;
  }

  lemma QuadCentury(y: int)
    requires y % 400 == 0
    ensures y % 100 == 0
  {
    var k := 4 * (y / 400);
    assert y == 100 * k;
  }

  /** The closed form also steps by `DaysInYear`. */
  lemma FormulaNext(y: int)
    ensures DayFromYearFormula(y + 1) == DayFromYearFormula(y) + DaysInYear(y)
  {
    var step4 := (y - 1968) / 4 - (y - 1969) / 4;
    var step100 := (y - 1900) / 100 - (y - 1901) / 100;
    var step400 := (y - 1600) / 400 - (y - 1601) / 400;
    assert DayFromYearFormula(y + 1) == DayFromYearFormula(y) + 365 + step4 - step100 + step400;
    assert DaysInYear(y) == 365 + step4 - step100 + step400 by {
      LeapStep4(y);
      LeapStep100(y);
      LeapStep400(y);
      CenturyDivisibility(y);
    }
  }

  /** The year-by-year sum is the closed form of section 21.4.1.3. */
  lemma {:induction false} DayFromYearIsFormula(y: int)
    ensures DayFromYear(y) == DayFromYearFormula(y)
    decreases if y < 1970 then 1970 - y else y - 1970
  {
    if y > 1970 {
      DayFromYearIsFormula(y - 1);
      FormulaNext(y - 1);
    } else if y < 1970 {
      DayFromYearIsFormula(y + 1);
      FormulaNext(y);
    }
  }

  /** Years at least `b - a` apart start at least 365 days per year apart. */
  lemma {:induction false} DayFromYearGrowth(a: int, b: int)
    requires a <= b
    ensures DayFromYear(b) - DayFromYear(a) >= 365 * (b - a)
    ensures DayFromYear(b) - DayFromYear(a) <= 366 * (b - a)
    decreases b - a
  {
    if a < b {
      DayFromYearGrowth(a, b - 1);
      DayFromYearNext(b - 1);
    }
  }

  function YearUp(n: int, y: int): (r: int)
    requires DayFromYear(y) <= n
    ensures DayFromYear(r) <= n < DayFromYear(r + 1)
    decreases n - DayFromYear(y)
  {
    DayFromYearNext(y);
    if n < DayFromYear(y + 1) then y else YearUp(n, y + 1)
  }

  function YearDown(n: int, y: int): (r: int)
    requires n < DayFromYear(y + 1)
    ensures DayFromYear(r) <= n < DayFromYear(r + 1)
    decreases DayFromYear(y + 1) - n
  {
    DayFromYearNext(y - 1);
    if DayFromYear(y) <= n then y else YearDown(n, y - 1)
  }

  /** The year day `n` falls in (`YearFromTime`): the largest `y` whose
      January 1 is not after `n`. The search starts from an estimate and walks
      year by year. */
  function YearFromDay(n: int): (y: int)
    ensures DayFromYear(y) <= n < DayFromYear(y + 1)
  {
    var guess := 1970 + (n * 400) / 146097;
    if DayFromYear(guess) <= n then YearUp(n, guess) else YearDown(n, guess - 1)
  }

  /** At most one year brackets a day. */
  lemma YearBracketUnique(n: int, a: int, b: int)
    requires DayFromYear(a) <= n < DayFromYear(a + 1)
    requires DayFromYear(b) <= n < DayFromYear(b + 1)
    ensures a == b
  {
    if a < b {
      DayFromYearGrowth(a + 1, b);
    } else if b < a {
      DayFromYearGrowth(b + 1, a);
    }
  }

  /** Any year that brackets a day is `YearFromDay` of it. */
  lemma YearFromDayUnique(n: int, y: int)
    requires DayFromYear(y) <= n < DayFromYear(y + 1)
    ensures YearFromDay(n) == y
  {
    YearBracketUnique(n, YearFromDay(n), y);
  }

  /** Days of the year before the first day of month `m` (0..12), following
      the month ranges of `MonthFromTime` (section 21.4.1.8); `MonthStart(12,
      leap)` is the length of the year. */
  function MonthStart(m: int, leap: int): (d: int)
    requires 0 <= m <= 12 && (leap == 0 || leap == 1)
    ensures 0 <= d <= 365 + leap
  {
    if m == 0 then 0
    else if m == 1 then 31
    else if m == 2 then 59 + leap
    else if m == 3 then 90 + leap
    else if m == 4 then 120 + leap
    else if m == 5 then 151 + leap
    else if m == 6 then 181 + leap
    else if m == 7 then 212 + leap
    else if m == 8 then 243 + leap
    else if m == 9 then 273 + leap
    else if m == 10 then 304 + leap
    else if m == 11 then 334 + leap
    else 365 + leap
  }

  /** Number of days of month `m` (0..11) of year `y`. */
  function MonthLength(y: int, m: int): (d: int)
    requires 0 <= m < 12
    ensures 28 <= d <= 31
  {
    MonthStartStep(m, Leap(y));
    MonthStart(m + 1, Leap(y)) - MonthStart(m, Leap(y))
  }

  /** Every month has 28 to 31 days. */
  lemma MonthStartStep(m: int, leap: int)
    requires 0 <= m < 12 && (leap == 0 || leap == 1)
    ensures 28 <= MonthStart(m + 1, leap) - MonthStart(m, leap) <= 31
  {
  }

  /** Later months start later in the year. */
  lemma {:induction false} MonthStartMonotone(a: int, b: int, leap: int)
    requires 0 <= a <= b <= 12 && (leap == 0 || leap == 1)
    ensures MonthStart(a, leap) <= MonthStart(b, leap)
    decreases b - a
  {
    if a < b {
      MonthStartMonotone(a, b - 1, leap);
      MonthStartStep(b - 1, leap);
    }
  }

  function MonthSearch(doy: int, leap: int, m: int): (r: int)
    requires (leap == 0 || leap == 1) && 0 <= m < 12
    requires MonthStart(m, leap) <= doy < 365 + leap
    ensures m <= r < 12 && MonthStart(r, leap) <= doy < MonthStart(r + 1, leap)
    decreases 12 - m
  {
    if m == 11 || doy < MonthStart(m + 1, leap) then m else MonthSearch(doy, leap, m + 1)
  }

  /** The month (0..11) that day-of-year `doy` falls in (`MonthFromTime`). */
  function MonthOfDayInYear(doy: int, leap: int): (m: int)
    requires (leap == 0 || leap == 1) && 0 <= doy < 365 + leap
    ensures 0 <= m < 12 && MonthStart(m, leap) <= doy < MonthStart(m + 1, leap)
  {
    MonthSearch(doy, leap, 0)
  }

  /** At most one month brackets a day of the year. */
  lemma MonthBracketUnique(doy: int, leap: int, a: int, b: int)
    requires (leap == 0 || leap == 1) && 0 <= a < 12 && 0 <= b < 12
    requires MonthStart(a, leap) <= doy < MonthStart(a + 1, leap)
    requires MonthStart(b, leap) <= doy < MonthStart(b + 1, leap)
    ensures a == b
  {
    if a < b {
      MonthStartMonotone(a + 1, b, leap);
    } else if b < a {
      MonthStartMonotone(b + 1, a, leap);
    }
  }

  /** Any month that brackets a day of the year is `MonthOfDayInYear` of it. */
  lemma MonthOfDayInYearUnique(doy: int, leap: int, m: int)
    requires (leap == 0 || leap == 1) && 0 <= doy < 365 + leap && 0 <= m < 12
    requires MonthStart(m, leap) <= doy < MonthStart(m + 1, leap)
    ensures MonthOfDayInYear(doy, leap) == m
  {
    MonthBracketUnique(doy, leap, MonthOfDayInYear(doy, leap), m);
  }

  /** A calendar date: year, month 0..11, day of month from 1. */
  datatype Civil = Civil(year: int, month: int, day: int)

  /** `MakeDay(year, month, date)` of section 21.4.1.28 for integral
      arguments: month overflow carries into the year and day overflow
      carries into later months, so the first day of the normalised month
      plus `date - 1`. */
  function MakeDay(year: int, month: int, date: int): int
  {
    var ym := year + month / 12;
    var mn := month % 12;
    DayFromYear(ym) + MonthStart(mn, Leap(ym)) + date - 1
  }

  /** `c` is an in-range calendar date whose day number is `n`: January 1 of
      its year, plus the days before its month, plus its day less one. */
  predicate NamesDay(c: Civil, n: int)
  {
    0 <= c.month < 12 && 1 <= c.day <= MonthLength(c.year, c.month)
    && DayFromYear(c.year) + MonthStart(c.month, Leap(c.year)) + c.day - 1 == n
  }

  /** Within one year, `MakeDay` is January 1 plus the days before the month
      plus the day of the month less one. */
  lemma MakeDayInYear(y: int, m: int, d: int)
    requires 0 <= m < 12
    ensures MakeDay(y, m, d) == DayFromYear(y) + MonthStart(m, Leap(y)) + d - 1
  {
    assert m / 12 == 0 && m % 12 == m;
  }

  /** Finds the calendar date of day `n`: its year, then its month. */
  function CivilSearch(n: int): (c: Civil)
    ensures NamesDay(c, n)
  {
    var y := YearFromDay(n);
    var doy := n - DayFromYear(y);
    assert 0 <= doy < 365 + Leap(y) by {
      DayFromYearNext(y);
    }
    var m := MonthOfDayInYear(doy, Leap(y));
    Civil(y, m, doy - MonthStart(m, Leap(y)) + 1)
  }

  /** The year and the month of an in-range date bracket its day number. */
  lemma NamesDayBrackets(c: Civil, n: int)
    requires NamesDay(c, n)
    ensures DayFromYear(c.year) <= n < DayFromYear(c.year + 1)
    ensures MonthStart(c.month, Leap(c.year)) <= n - DayFromYear(c.year) < MonthStart(c.month + 1, Leap(c.year))
  {
    var y, m, d := c.year, c.month, c.day;
    var leap := Leap(y);
    var doy := MonthStart(m, leap) + d - 1;
    assert doy < MonthStart(m + 1, leap) by {
      assert d <= MonthLength(y, m);
    }
    assert 0 <= doy < 365 + leap by {
      MonthStartMonotone(m + 1, 12, leap);
    }
    DayFromYearNext(y);
  }

  /** Two in-range calendar dates with the same day number are the same date. */
  lemma NamesSameDay(c1: Civil, c2: Civil, n: int)
    requires NamesDay(c1, n) && NamesDay(c2, n)
    ensures c1 == c2
  {
    NamesDayBrackets(c1, n);
    NamesDayBrackets(c2, n);
    YearBracketUnique(n, c1.year, c2.year);
    MonthBracketUnique(n - DayFromYear(c1.year), Leap(c1.year), c1.month, c2.month);
  }

  /** An in-range calendar date is the one the search finds for its day number. */
  lemma CivilSearchMakeDay(c: Civil)
    requires 0 <= c.month < 12 && 1 <= c.day <= MonthLength(c.year, c.month)
    ensures CivilSearch(MakeDay(c.year, c.month, c.day)) == c
  {
    var n := MakeDay(c.year, c.month, c.day);
    MakeDayInYear(c.year, c.month, c.day);
    NamesSameDay(c, CivilSearch(n), n);
  }

  /** Each day number names exactly one in-range calendar date. */
  lemma NamesDayUnique(n: int)
    ensures exists c :: NamesDay(c, n)
    ensures forall c1, c2 :: NamesDay(c1, n) && NamesDay(c2, n) ==> c1 == c2
  {
    assert NamesDay(CivilSearch(n), n);
    forall c1, c2 | NamesDay(c1, n) && NamesDay(c2, n)
      ensures c1 == c2
    {
      NamesSameDay(c1, c2, n);
    }
  }

  /** The calendar date of day `n` (`YearFromTime`, `MonthFromTime`,
      `DateFromTime` of section 21.4.1): the unique in-range date that
      `MakeDay` maps to `n`. */
  function CivilFromDay(n: int): (c: Civil)
    ensures NamesDay(c, n)
    ensures MakeDay(c.year, c.month, c.day) == n
  {
    NamesDayUnique(n);
    var c :| NamesDay(c, n);
    MakeDayInYear(c.year, c.month, c.day);
    c
  }

  /** An in-range calendar date is read back unchanged from its day number. */
  lemma CivilFromMakeDay(y: int, m: int, d: int)
    requires 0 <= m < 12 && 1 <= d <= MonthLength(y, m)
    ensures CivilFromDay(MakeDay(y, m, d)) == Civil(y, m, d)
  {
    MakeDayInYear(y, m, d);
    NamesSameDay(CivilFromDay(MakeDay(y, m, d)), Civil(y, m, d), MakeDay(y, m, d));
  }

  /** A month argument outside 0 to 11 carries whole years: when the day
      exists in the month it lands in, `MakeDay` names that calendar date. */
  lemma CivilFromMakeDayCarried(y: int, m: int, d: int)
    requires 1 <= d <= MonthLength(y + m / 12, m % 12)
    ensures CivilFromDay(MakeDay(y, m, d)) == Civil(y + m / 12, m % 12, d)
  {
    assert (m % 12) / 12 == 0 && (m % 12) % 12 == m % 12;
    assert MakeDay(y, m, d) == MakeDay(y + m / 12, m % 12, d);
    CivilFromMakeDay(y + m / 12, m % 12, d);
  }

  /** Moving the day-of-month argument moves the day number by as much. */
  lemma MakeDayShift(y: int, m: int, d: int, k: int)
    ensures MakeDay(y, m, d + k) == MakeDay(y, m, d) + k
  {
  }

  /** One month later, in `MakeDay` terms, is 28 to 31 days later. */
  lemma MakeDayNextMonth(y: int, m: int, d: int)
    ensures 28 <= MakeDay(y, m + 1, d) - MakeDay(y, m, d) <= 31
  {
    var ym := y + m / 12;
    var mn := m % 12;
    if mn < 11 {
      assert (m + 1) / 12 == m / 12 && (m + 1) % 12 == mn + 1;
      MonthStartStep(mn, Leap(ym));
    } else {
      assert (m + 1) / 12 == m / 12 + 1 && (m + 1) % 12 == 0;
      DayFromYearNext(ym);
    }
  }

  /** `m2 - m` months later is at least 28 and at most 31 days per month later. */
  lemma {:induction false} MakeDayMonthsLater(y: int, m: int, m2: int, d: int)
    requires m <= m2
    ensures 28 * (m2 - m) <= MakeDay(y, m2, d) - MakeDay(y, m, d) <= 31 * (m2 - m)
    decreases m2 - m
  {
    if m < m2 {
      MakeDayMonthsLater(y, m, m2 - 1, d);
      MakeDayNextMonth(y, m2 - 1, d);
    }
  }

  /** Every year within the range of day numbers that ECMAScript time values
      allow (100,000,000 days either side of the epoch) has at most six digits. */
  lemma YearFromDayBounds(n: int)
    requires -100_000_000 <= n <= 100_000_000
    ensures -999_999 <= YearFromDay(n) <= 999_999
  {
    var y := YearFromDay(n);
    if y > 999_999 {
      DayFromYearGrowth(1970, y);
    } else if y < -999_999 {
      DayFromYearGrowth(y + 1, 1970);
    }
  }

  /** The calendar date of such a day number has a year of at most six digits. */
  lemma CivilFromDayBounds(n: int)
    requires -100_000_000 <= n <= 100_000_000
    ensures -999_999 <= CivilFromDay(n).year <= 999_999
  {
    var c := CivilFromDay(n);
    YearFromDayBounds(n);
    NamesDayBrackets(c, n);
    YearFromDayUnique(n, c.year);
  }
}
