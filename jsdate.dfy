/** ECMAScript Date objects in UTC (section 21.4 of ECMA-262): a Date holds a
    time value in milliseconds since the epoch, or NaN (an "Invalid Date").
    The operations are the ones the components use: `new Date(string)` for
    date-only strings, `new Date(date)`, `getDate`/`setDate`,
    `getMonth`/`setMonth`, `toDateString` equality, relational comparison,
    subtraction and `toISOString().split('T')[0]`. */
module JsDate {
  import opened Js
  import opened Text
  import opened Calendar

  const MsPerDay: int := 86_400_000
  const MsPerWeek: int := 7 * MsPerDay

  /** The largest magnitude of a time value (section 21.4.1.1). */
  const MaxTime: int := 8_640_000_000_000_000

  type TimeValue = t: int | -MaxTime <= t <= MaxTime

  datatype Date = Valid(ms: TimeValue) | Invalid

  /** `TimeClip`: out-of-range instants become NaN. */
  function TimeClip(t: int): (d: Date)
    ensures d.Valid? <==> -MaxTime <= t <= MaxTime
    ensures d.Valid? ==> d.ms == t
  {
    if -MaxTime <= t <= MaxTime then Valid(t) else Invalid
  }

  /** `Day(t)`: the day number of an instant. */
  function Day(t: int): int
  {
    t / 86_400_000
  }

  /** `TimeWithinDay(t)`: milliseconds since midnight. */
  function TimeWithinDay(t: int): (r: int)
    ensures 0 <= r < MsPerDay && t == Midnight(Day(t)) + r
  {
    t % 86_400_000
  }

  /** `n` days in milliseconds; as an instant, midnight (UTC) of day `n`.
      The literal keeps the product linear for the solver. */
  function Midnight(n: int): int
  {
    n * 86_400_000
  }

  /** `date.getDate()`. */
  function GetDate(d: Date): Num
  {
    match d
    case Invalid => NaN
    case Valid(t) => Int(CivilFromDay(Day(t)).day)
  }

  /** `date.getMonth()`. */
  function GetMonth(d: Date): Num
  {
    match d
    case Invalid => NaN
    case Valid(t) => Int(CivilFromDay(Day(t)).month)
  }

  /** `date.setDate(dt)`: same year, month and time of day, day of month `dt`
      (rolled by `MakeDay`); a NaN date or argument gives an Invalid Date. */
  function SetDate(d: Date, dt: Num): Date
  {
    match d
    case Invalid => Invalid
    case Valid(t) =>
      if dt.NaN? then Invalid
      else
        var c := CivilFromDay(Day(t));
        TimeClip(Midnight(MakeDay(c.year, c.month, dt.value)) + TimeWithinDay(t))
  }

  /** `date.setMonth(m)`: same year, day of month and time of day, month `m`
      (rolled by `MakeDay`); a NaN date or argument gives an Invalid Date. */
  function SetMonth(d: Date, m: Num): Date
  {
    match d
    case Invalid => Invalid
    case Valid(t) => if m.NaN? then Invalid else TimeClip(MonthMoved(t, m.value))
  }

  /** The instant `setMonth(m)` computes before clipping: midnight of the day
      `MakeDay` names for `t`'s year, month `m` and day of the month, plus
      `t`'s time of day. */
  function MonthMoved(t: TimeValue, m: int): int
  {
    var c := CivilFromDay(Day(t));
    Midnight(MakeDay(c.year, m, c.day)) + TimeWithinDay(t)
  }

  /** `d.setDate(d.getDate() + k)` moves the instant by exactly `k` days, or
      makes the date invalid when that leaves the time-value range. */
  lemma SetDateAddDays(d: Date, k: int)
    requires d.Valid?
    ensures SetDate(d, Add(GetDate(d), Int(k))) == TimeClip(d.ms + Midnight(k))
  {
    var t := d.ms;
    var c := CivilFromDay(Day(t));
    MakeDayShift(c.year, c.month, c.day, k);
  }

  /** `r` is the instant `n >= 0` calendar months after `t`: the same time of
      day, on the day `n` calendar months after `t`'s day. */
  ghost predicate MonthsOn(t: TimeValue, n: nat, r: int)
  {
    TimeWithinDay(r) == TimeWithinDay(t) && MonthsLater(Day(t), n, Day(r))
  }

  /** Day `day` is `n >= 0` calendar months after day `start`, read in
      `start`'s calendar date (see `MonthsLaterFrom`). */
  ghost predicate MonthsLater(start: int, n: nat, day: int)
  {
    var c := CivilFromDay(start);
    MonthsLaterFrom(c.year, c.month, c.day, n, start, day)
  }

  /** Day `day` is `n >= 0` calendar months after day `start`, the date
      `y`-`mo`-`d`: the day `MakeDay` names for year `y`, month `mo + n` and
      day `d`, which is that same day of the month when the target month has
      it (surplus days roll into the following month), and lies 28 to 31 days
      per month after `start`. */
  ghost predicate MonthsLaterFrom(y: int, mo: int, d: int, n: nat, start: int, day: int)
  {
    day == MakeDay(y, mo + n, d)
    && 28 * n <= day - start <= 31 * n
    && (d <= MonthLength(y + (mo + n) / 12, (mo + n) % 12) ==>
          CivilFromDay(day) == Civil(y + (mo + n) / 12, (mo + n) % 12, d))
  }

  /** The instant `setMonth(getMonth() + n)` computes before clipping is `n`
      calendar months after `t`. */
  lemma MonthsOnOf(t: TimeValue, n: nat, r: int)
    requires r == MonthMoved(t, CivilFromDay(Day(t)).month + n)
    ensures MonthsOn(t, n, r)
  {
    var c := CivilFromDay(Day(t));
    MidnightPlus(MakeDay(c.year, c.month + n, c.day), TimeWithinDay(t));
    MonthsLaterOf(Day(t), n, Day(r));
  }

  /** The day `MakeDay` names for `start`'s year, month plus `n` and day of the
      month is `n` calendar months after `start`. */
  lemma MonthsLaterOf(start: int, n: nat, day: int)
    requires var c := CivilFromDay(start); day == MakeDay(c.year, c.month + n, c.day)
    ensures MonthsLater(start, n, day)
  {
    var c := CivilFromDay(start);
    MonthsLaterFromOf(c.year, c.month, c.day, n, start, day);
  }

  /** The same, for the calendar date `y`-`mo`-`d` of `start`. */
  lemma MonthsLaterFromOf(y: int, mo: int, d: int, n: nat, start: int, day: int)
    requires 1 <= d && start == MakeDay(y, mo, d) && day == MakeDay(y, mo + n, d)
    ensures MonthsLaterFrom(y, mo, d, n, start, day)
  {
    MonthsLaterSpan(y, mo, d, n, start, day);
    MonthsLaterCalendar(y, mo, d, n, day);
  }

  /** The day `MakeDay` names for month `mo + n` is 28 to 31 days per month
      after the day `start` it names for month `mo`. */
  lemma MonthsLaterSpan(y: int, mo: int, d: int, n: nat, start: int, day: int)
    requires start == MakeDay(y, mo, d) && day == MakeDay(y, mo + n, d)
    ensures 28 * n <= day - start <= 31 * n
  {
    MakeDayMonthsLater(y, mo, mo + n, d);
  }

  /** The day `MakeDay` names for month `mo + n` is the calendar date `d` of
      the month it carries into when that month has the day. */
  lemma MonthsLaterCalendar(y: int, mo: int, d: int, n: nat, day: int)
    requires 1 <= d && day == MakeDay(y, mo + n, d)
    ensures d <= MonthLength(y + (mo + n) / 12, (mo + n) % 12) ==>
      CivilFromDay(day) == Civil(y + (mo + n) / 12, (mo + n) % 12, d)
  {
    if d <= MonthLength(y + (mo + n) / 12, (mo + n) % 12) {
      CivilFromMakeDayCarried(y, mo + n, d);
    }
  }

  /** `d.setMonth(d.getMonth() + n)` for `n >= 0` clips an instant `r` that
      is `n` calendar months after `d` and at most `31 * n` days later. */
  lemma SetMonthAt(t: TimeValue, n: nat) returns (r: int)
    ensures SetMonth(Valid(t), Int(CivilFromDay(Day(t)).month + n)) == TimeClip(r)
    ensures MonthsOn(t, n, r)
    ensures t <= r <= t + Midnight(31 * n)
  {
    r := MonthMoved(t, CivilFromDay(Day(t)).month + n);
    MonthsOnOf(t, n, r);
    MonthsOnBounds(t, n, r);
  }

  /** An instant `n` calendar months after `t` lies between `t` and `31 * n`
      days later. */
  lemma MonthsOnBounds(t: TimeValue, n: nat, r: int)
    requires MonthsOn(t, n, r)
    ensures t <= r <= t + Midnight(31 * n)
  {
    assert r == Midnight(Day(r)) + TimeWithinDay(r);
    assert t == Midnight(Day(t)) + TimeWithinDay(t);
  }

  /** `d.setMonth(d.getMonth() + n)` for `n >= 0` stays in range when `d`
      plus `31 * n` days does. */
  lemma SetMonthByInRange(t: TimeValue, n: nat)
    requires t + Midnight(31 * n) <= MaxTime
    ensures SetMonth(Valid(t), Int(CivilFromDay(Day(t)).month + n)).Valid?
  {
    var r := SetMonthAt(t, n);
  }

  /** `d.setMonth(d.getMonth() + n)` for `n >= 0`, when in range, is the
      instant `n` calendar months after `d`. */
  lemma SetMonthBy(t: TimeValue, n: nat)
    ensures var r := SetMonth(Valid(t), Int(CivilFromDay(Day(t)).month + n));
      r.Valid? ==> MonthsOn(t, n, r.ms)
  {
    var r := SetMonthAt(t, n);
    SetMonthLandsOn(t, n, r);
  }

  /** When `setMonth` gives the instant `r` clipped to the range, and `r` is
      `n` months after `t`, then so is its result when valid. */
  lemma SetMonthLandsOn(t: TimeValue, n: nat, r: int)
    requires MonthsOn(t, n, r)
    requires SetMonth(Valid(t), Int(CivilFromDay(Day(t)).month + n)) == TimeClip(r)
    ensures var d := SetMonth(Valid(t), Int(CivilFromDay(Day(t)).month + n));
      d.Valid? ==> MonthsOn(t, n, d.ms)
  {
  }


  /** Midnight of day `n` plus less than a day is on day `n`. */
  lemma MidnightPlus(n: int, r: int)
    requires 0 <= r < MsPerDay
    ensures Day(Midnight(n) + r) == n && TimeWithinDay(Midnight(n) + r) == r
  {
  }

  /** Moving an instant by whole days moves its day number by as many. */
  lemma DayShift(t: int, k: int)
    ensures Day(t + Midnight(k)) == Day(t) + k
    ensures TimeWithinDay(t + Midnight(k)) == TimeWithinDay(t)
  {
    MidnightPlus(Day(t) + k, TimeWithinDay(t));
  }

  /** Every time value lies within 100,000,000 days of the epoch. */
  lemma DayBounds(t: TimeValue)
    ensures -100_000_000 <= Day(t) <= 100_000_000
    ensures -MaxTime <= Midnight(Day(t)) <= MaxTime
  {
  }

  /** The calendar date of a valid Date. */
  function CivilOf(d: Date): (c: Civil)
    requires d.Valid?
    ensures -999_999 <= c.year <= 999_999 && 0 <= c.month < 12 && 1 <= c.day <= 31
  {
    DayBounds(d.ms);
    CivilFromDayBounds(Day(d.ms));
    CivilFromDay(Day(d.ms))
  }

  /** The year as `toISOString` writes it: four digits for 0..9999, otherwise
      a sign and six digits. */
  function YearText(y: int): (s: string)
    requires -999_999 <= y <= 999_999
    ensures |s| == 4 || |s| == 7
  {
    if 0 <= y <= 9999 then Padded(y, 4)
    else (if y < 0 then "-" else "+") + Padded(if y < 0 then -y else y, 6)
  }

  /** `YYYY-MM-DD` (or `±YYYYYY-MM-DD`) for a calendar date. */
  function IsoDateText(c: Civil): string
    requires -999_999 <= c.year <= 999_999 && 0 <= c.month < 12 && 1 <= c.day <= 31
  {
    YearText(c.year) + "-" + Padded(c.month + 1, 2) + "-" + Padded(c.day, 2)
  }

  /** `d.toISOString().split('T')[0]`: the UTC calendar date of the instant;
      an Invalid Date throws a RangeError (section 21.4.4.36). */
  function ToIsoDate(d: Date): (r: Completion<string>)
    ensures r.Throw? <==> d.Invalid?
    ensures r.Throw? ==> r.error == RangeError
  {
    match d
    case Invalid => Throw(RangeError)
    case Valid(_) => Normal(IsoDateText(CivilOf(d)))
  }

  /** The Date for year `y`, month `mo` (1..12) and day `dd` (1..31) read from
      a date string: midnight UTC of `MakeDay(y, mo - 1, dd)`. Out-of-range
      fields and out-of-range instants give an Invalid Date. */
  function FromDateFields(y: int, mo: int, dd: int): Date
  {
    if 1 <= mo <= 12 && 1 <= dd <= 31 then TimeClip(Midnight(MakeDay(y, mo - 1, dd)))
    else Invalid
  }

  predicate IsShortDateForm(s: string)
  {
    |s| == 10 && AllAsciiDigits(s[..4]) && s[4] == '-' && AllAsciiDigits(s[5..7])
    && s[7] == '-' && AllAsciiDigits(s[8..])
  }

  predicate IsExpandedDateForm(s: string)
  {
    |s| == 13 && (s[0] == '+' || s[0] == '-') && AllAsciiDigits(s[1..7]) && s[7] == '-'
    && AllAsciiDigits(s[8..10]) && s[10] == '-' && AllAsciiDigits(s[11..])
    && !(s[0] == '-' && DigitsValue(s[1..7]) == 0)
  }

  /** The year, month (1..12 when well formed) and day a date string spells. */
  datatype DateFields = NoDate | Fields(year: int, month: int, day: int)

  /** The fields of the date-only forms of the Date Time String Format
      (section 21.4.1.32): `YYYY-MM-DD` and, with an expanded year,
      `±YYYYYY-MM-DD` (`-000000` is not allowed). */
  function DateFieldsOf(s: string): DateFields
  {
    if IsShortDateForm(s) then
      Fields(DigitsValue(s[..4]), DigitsValue(s[5..7]), DigitsValue(s[8..]))
    else if IsExpandedDateForm(s) then
      var v: int := DigitsValue(s[1..7]);
      Fields(if s[0] == '-' then -v else v, DigitsValue(s[8..10]), DigitsValue(s[11..]))
    else NoDate
  }

  /** `new Date(s)`: date-only forms are read as midnight UTC; any other
      string gives an Invalid Date here. */
  function ParseDate(s: string): Date
  {
    match DateFieldsOf(s)
    case NoDate => Invalid
    case Fields(y, mo, dd) => FromDateFields(y, mo, dd)
  }

  /** A short-form date string made of a four-digit year, a two-digit month
      and a two-digit day spells those three numbers. */
  lemma ShortFormFields(ys: string, ms: string, ds: string)
    requires |ys| == 4 && |ms| == 2 && |ds| == 2
    requires AllAsciiDigits(ys) && AllAsciiDigits(ms) && AllAsciiDigits(ds)
    ensures DateFieldsOf(ys + "-" + ms + "-" + ds)
      == Fields(DigitsValue(ys), DigitsValue(ms), DigitsValue(ds))
  {
    ShortFormParts(ys, ms, ds);
  }

  /** Where the parts of a short-form date string sit. */
  lemma ShortFormParts(ys: string, ms: string, ds: string)
    requires |ys| == 4 && |ms| == 2 && |ds| == 2
    ensures var s := ys + "-" + ms + "-" + ds;
      |s| == 10 && s[..4] == ys && s[4] == '-' && s[5..7] == ms && s[7] == '-' && s[8..] == ds
  {
    var s := ys + "-" + ms + "-" + ds;
    assert s[5..7] == ms && s[8..] == ds by { assert s == (ys + "-") + ms + ("-" + ds); }
  }

  /** An expanded-form date string spells its signed six-digit year, its
      month and its day. */
  lemma ExpandedFormFields(sign: string, ys: string, ms: string, ds: string)
    requires sign == "+" || sign == "-"
    requires |ys| == 6 && |ms| == 2 && |ds| == 2
    requires AllAsciiDigits(ys) && AllAsciiDigits(ms) && AllAsciiDigits(ds)
    requires !(sign == "-" && DigitsValue(ys) == 0)
    ensures DateFieldsOf(sign + ys + "-" + ms + "-" + ds)
      == Fields(if sign == "-" then -(DigitsValue(ys) as int) else DigitsValue(ys), DigitsValue(ms), DigitsValue(ds))
  {
    ExpandedFormParts(sign, ys, ms, ds);
  }

  /** Where the parts of an expanded-form date string sit. */
  lemma ExpandedFormParts(sign: string, ys: string, ms: string, ds: string)
    requires |sign| == 1 && |ys| == 6 && |ms| == 2 && |ds| == 2
    ensures var s := sign + ys + "-" + ms + "-" + ds;
      |s| == 13 && s[0] == sign[0] && s[1..7] == ys && s[7] == '-' && s[8..10] == ms && s[10] == '-' && s[11..] == ds
  {
    var s := sign + ys + "-" + ms + "-" + ds;
    assert s[1..7] == ys by { assert s == sign + (ys + ("-" + ms + "-" + ds)); }
    assert s[8..10] == ms && s[11..] == ds by { assert s == (sign + ys + "-") + ms + ("-" + ds); }
  }

  /** The fields of a calendar date, month written from 1, denote midnight
      of its day number. */
  lemma FromCivilFields(c: Civil)
    requires 0 <= c.month < 12 && 1 <= c.day <= 31
    ensures FromDateFields(c.year, c.month + 1, c.day) == TimeClip(Midnight(MakeDay(c.year, c.month, c.day)))
  {
  }

  /** Midnight of day `n` is on day `n`. */
  lemma MidnightDay(n: int)
    ensures Day(Midnight(n)) == n
  {
  }

  /** The text written for a calendar date spells that date again. */
  lemma IsoDateTextFields(c: Civil)
    requires -999_999 <= c.year <= 999_999 && 0 <= c.month < 12 && 1 <= c.day <= 31
    ensures DateFieldsOf(IsoDateText(c)) == Fields(c.year, c.month + 1, c.day)
  {
    DigitsValuePadded(c.month + 1, 2);
    DigitsValuePadded(c.day, 2);
    if 0 <= c.year <= 9999 {
      ShortYearFields(c);
    } else {
      ExpandedYearFields(c);
    }
  }

  /** A year from 0 to 9999 is written in the short form. */
  lemma ShortYearFields(c: Civil)
    requires 0 <= c.year <= 9999 && 0 <= c.month < 12 && 1 <= c.day <= 31
    requires DigitsValue(Padded(c.month + 1, 2)) == c.month + 1 && DigitsValue(Padded(c.day, 2)) == c.day
    ensures DateFieldsOf(IsoDateText(c)) == Fields(c.year, c.month + 1, c.day)
  {
    ShortYearText(c);
    DigitsValuePadded(c.year, 4);
    ShortFormFields(Padded(c.year, 4), Padded(c.month + 1, 2), Padded(c.day, 2));
  }

  /** The short-form text, piece by piece. */
  lemma ShortYearText(c: Civil)
    requires 0 <= c.year <= 9999 && 0 <= c.month < 12 && 1 <= c.day <= 31
    ensures IsoDateText(c) == Padded(c.year, 4) + "-" + Padded(c.month + 1, 2) + "-" + Padded(c.day, 2)
  {
  }

  /** Any other year is written signed, in six digits. */
  lemma ExpandedYearFields(c: Civil)
    requires -999_999 <= c.year <= 999_999 && !(0 <= c.year <= 9999) && 0 <= c.month < 12 && 1 <= c.day <= 31
    requires DigitsValue(Padded(c.month + 1, 2)) == c.month + 1 && DigitsValue(Padded(c.day, 2)) == c.day
    ensures DateFieldsOf(IsoDateText(c)) == Fields(c.year, c.month + 1, c.day)
  {
    var mag := if c.year < 0 then -c.year else c.year;
    var sign := if c.year < 0 then "-" else "+";
    ExpandedYearText(c, sign, mag);
    DigitsValuePadded(mag, 6);
    ExpandedFormFields(sign, Padded(mag, 6), Padded(c.month + 1, 2), Padded(c.day, 2));
  }

  /** The expanded-form text, piece by piece. */
  lemma ExpandedYearText(c: Civil, sign: string, mag: nat)
    requires -999_999 <= c.year <= 999_999 && !(0 <= c.year <= 9999) && 0 <= c.month < 12 && 1 <= c.day <= 31
    requires sign == (if c.year < 0 then "-" else "+") && mag == (if c.year < 0 then -c.year else c.year)
    ensures IsoDateText(c) == sign + Padded(mag, 6) + "-" + Padded(c.month + 1, 2) + "-" + Padded(c.day, 2)
  {
  }

  /** Reading back the date part `toISOString` writes gives midnight of the
      same UTC day. */
  lemma ParseIsoDate(d: Date)
    requires d.Valid?
    ensures -MaxTime <= Midnight(Day(d.ms)) <= MaxTime
    ensures ParseDate(ToIsoDate(d).value) == Valid(Midnight(Day(d.ms)))
  {
    var c := CivilOf(d);
    DayBounds(d.ms);
    ToIsoDateOfCivil(d, c);
    IsoDateTextFields(c);
    FromCivilFields(c);
    assert MakeDay(c.year, c.month, c.day) == Day(d.ms);
  }

  /** The date string `s` reads as midnight of day `n`. */
  predicate DenotesDay(s: string, n: int)
  {
    ParseDate(s).Valid? && ParseDate(s).ms == Midnight(n)
  }

  /** A `YYYY-MM-DD` string naming a day that exists, as a date input yields. */
  predicate IsCalendarDate(s: string)
  {
    IsShortDateForm(s) && 1 <= DigitsValue(s[5..7]) <= 12
    && 1 <= DigitsValue(s[8..]) <= MonthLength(DigitsValue(s[..4]), DigitsValue(s[5..7]) - 1)
  }

  /** A short-form date string is its three numerals joined by dashes. */
  lemma ShortFormSplit(s: string)
    requires IsShortDateForm(s)
    ensures s == s[..4] + "-" + s[5..7] + "-" + s[8..]
  {
  }

  /** A `YYYY-MM-DD` string naming a real calendar day is written back
      unchanged, so the date strings a date picker produces survive a
      round trip through a Date. */
  lemma IsoDateOfParse(s: string)
    requires IsCalendarDate(s)
    ensures ParseDate(s).Valid? && ToIsoDate(ParseDate(s)) == Normal(s)
  {
    var y, mo, dd := DigitsValue(s[..4]), DigitsValue(s[5..7]), DigitsValue(s[8..]);
    var c := Civil(y, mo - 1, dd);
    var n := MakeDay(y, mo - 1, dd);
    CalendarDateDay(s);
    assert CivilOf(Valid(Midnight(n))) == c by {
      MidnightDay(n);
      CivilFromMakeDay(y, mo - 1, dd);
    }
    ToIsoDateOfCivil(Valid(Midnight(n)), c);
    ShortFormText(s);
  }

  /** A calendar date string reads as midnight of the day `MakeDay` gives
      its fields, which is within the time-value range. */
  lemma CalendarDateDay(s: string)
    requires IsCalendarDate(s)
    ensures var n := MakeDay(DigitsValue(s[..4]), DigitsValue(s[5..7]) - 1, DigitsValue(s[8..]));
      -100_000_000 <= n <= 100_000_000 && ParseDate(s) == Valid(Midnight(n))
  {
    var y, mo, dd := DigitsValue(s[..4]), DigitsValue(s[5..7]), DigitsValue(s[8..]);
    var n := MakeDay(y, mo - 1, dd);
    assert -100_000_000 <= n <= 100_000_000 by {
      if y >= 1970 {
        DayFromYearGrowth(1970, y);
      } else {
        DayFromYearGrowth(y, 1970);
      }
    }
    assert DateFieldsOf(s) == Fields(y, mo, dd);
    FromCivilFields(Civil(y, mo - 1, dd));
  }

  /** A valid Date is written as the text of its calendar date. */
  lemma ToIsoDateOfCivil(d: Date, c: Civil)
    requires d.Valid? && CivilOf(d) == c
    ensures -999_999 <= c.year <= 999_999 && 0 <= c.month < 12 && 1 <= c.day <= 31
    ensures ToIsoDate(d) == Normal(IsoDateText(c))
  {
  }

  /** Writing out the fields a short-form date string spells gives the string back. */
  lemma ShortFormText(s: string)
    requires IsShortDateForm(s)
    requires 1 <= DigitsValue(s[5..7]) <= 12 && 1 <= DigitsValue(s[8..]) <= 31
    ensures IsoDateText(Civil(DigitsValue(s[..4]), DigitsValue(s[5..7]) - 1, DigitsValue(s[8..]))) == s
  {
    var mo := DigitsValue(s[5..7]);
    assert Padded(mo - 1 + 1, 2) == Padded(mo, 2);
    PaddedDigitsValue(s[..4]);
    PaddedDigitsValue(s[5..7]);
    PaddedDigitsValue(s[8..]);
    ShortFormSplit(s);
  }

  /** `a - b` on Dates, as a Number. */
  function Minus(a: Date, now: int): Num
  {
    if a.Invalid? then NaN else Int(a.ms - now)
  }

  /** `now >= d` for a Date `d`: false when `d` is invalid (NaN compares false). */
  predicate NotBefore(now: int, d: Date)
  {
    d.Valid? && now >= d.ms
  }

  /** `Math.ceil((d - now) / msPerDay)`: whole days until `d`, rounded up. */
  function DaysUntil(d: Date, now: int): (r: Num)
    ensures r.NaN? <==> d.Invalid?
    ensures r.Int? ==> Midnight(r.value) >= d.ms - now > Midnight(r.value - 1)
  {
    if d.Invalid? then NaN else Int(CeilDiv(d.ms - now, MsPerDay))
  }
}
