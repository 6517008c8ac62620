/** The schedules of the maternal and child health tracker: antenatal visit
    dates counted back from a due date, vaccination dates counted forward
    from a birth date, the current pregnancy week and the vaccination card
    code (src/components/MaternalChildTracker.jsx). */
module Schedules {
  import opened Js
  import opened Text
  import opened Numerals
  import opened Calendar
  import opened JsDate

  /** A row of the antenatal visit table: the pregnancy week and the visit. */
  datatype AncVisit = AncVisit(week: int, visit: string)

  const AncVisits: seq<AncVisit> := [
    AncVisit(8, "প্রথম এএনসি ভিজিট - প্রাথমিক পরীক্ষা"),
    AncVisit(20, "দ্বিতীয় এএনসি ভিজিট - আল্ট্রাসাউন্ড"),
    AncVisit(28, "তৃতীয় এএনসি ভিজিট - রক্ত পরীক্ষা"),
    AncVisit(36, "চতুর্থ এএনসি ভিজিট - চূড়ান্ত প্রস্তুতি")
  ]

  /** An antenatal row as the schedule returns it, with the visit's date as
      `YYYY-MM-DD`. */
  datatype AncRow = AncRow(week: int, visit: string, date: string)

  /** Days from the visit of week `week` to the due date (week 40). */
  function AncOffset(week: int): int
  {
    (40 - week) * 7
  }

  /** A copy of the due date moved back by `(40 - week) * 7` days with
      `setDate(getDate() - …)`. */
  function VisitDate(due: Date, week: int): Date
  {
    SetDate(due, Sub(GetDate(due), Int(AncOffset(week))))
  }

  /** The visit date is the due date less the offset, in whole days. */
  lemma VisitDateShift(due: Date, week: int)
    requires due.Valid?
    ensures VisitDate(due, week) == TimeClip(due.ms - Midnight(AncOffset(week)))
  {
    assert Sub(GetDate(due), Int(AncOffset(week))) == Add(GetDate(due), Int(-AncOffset(week)));
    SetDateAddDays(due, -AncOffset(week));
  }

  /** One antenatal row: copying the table row and writing its date throws
      a RangeError when the date is invalid. */
  function AncRowOf(due: Date, v: AncVisit): (r: Completion<AncRow>)
    ensures r.Throw? ==> r.error == RangeError
    ensures r.Normal? <==> VisitDate(due, v.week).Valid?
    ensures r.Normal? ==>
      r.value.week == v.week && r.value.visit == v.visit
      && DenotesDay(r.value.date, Day(VisitDate(due, v.week).ms))
  {
    var visitDate := VisitDate(due, v.week);
    match ToIsoDate(visitDate)
    case Throw(e) => Throw(e)
    case Normal(date) =>
      ParseIsoDate(visitDate);
      Normal(AncRow(v.week, v.visit, date))
  }

  /** Every antenatal date is representable exactly when the due date is
      valid and the earliest visit, 224 days before it, is in range. */
  lemma AncVisitsInRange(due: Date)
    ensures (forall i :: 0 <= i < |AncVisits| ==> VisitDate(due, AncVisits[i].week).Valid?)
      <==> due.Valid? && due.ms - Midnight(224) >= -MaxTime
  {
    if due.Valid? {
      forall i | 0 <= i < |AncVisits|
        ensures VisitDate(due, AncVisits[i].week) == TimeClip(due.ms - Midnight(AncOffset(AncVisits[i].week)))
      {
        VisitDateShift(due, AncVisits[i].week);
      }
      assert AncOffset(AncVisits[0].week) == 224;
    } else {
      assert VisitDate(due, AncVisits[0].week) == Invalid;
    }
  }

  /** The callback `getMaternalSchedule` maps over the table. */
  function AncRowFn(due: Date): AncVisit -> Completion<AncRow>
  {
    v => AncRowOf(due, v)
  }

  /** `getMaternalSchedule(dueDate)`: the table mapped to dated rows. */
  function MaternalSchedule(dueDate: string): Completion<seq<AncRow>>
  {
    MapOrThrow(AncRowFn(ParseDate(dueDate)), AncVisits)
  }

  /** The antenatal schedule throws only a RangeError, and does so exactly
      when the due date is invalid or the earliest visit, 224 days before
      it, falls outside the time-value range; otherwise it has one row per
      table row, in table order. */
  lemma MaternalScheduleShape(dueDate: string)
    ensures var r := MaternalSchedule(dueDate);
      (r.Throw? ==> r.error == RangeError)
      && (r.Normal? <==> ParseDate(dueDate).Valid? && ParseDate(dueDate).ms - Midnight(224) >= -MaxTime)
      && (r.Normal? ==>
            |r.value| == |AncVisits|
            && forall i :: 0 <= i < |AncVisits| ==> r.value[i].week == AncVisits[i].week && r.value[i].visit == AncVisits[i].visit)
  {
    var due := ParseDate(dueDate);
    var f := AncRowFn(due);
    var r := MapOrThrow(f, AncVisits);
    MapOrThrowSpec(f, AncVisits);
    assert r.Throw? ==> r.error == RangeError by {
      if r.Throw? {
        var i :| 0 <= i < |AncVisits| && f(AncVisits[i]) == Throw(r.error);
      }
    }
    assert r.Normal? <==> forall i :: 0 <= i < |AncVisits| ==> VisitDate(due, AncVisits[i].week).Valid? by {
      assert forall i :: 0 <= i < |AncVisits| ==> (f(AncVisits[i]).Normal? <==> VisitDate(due, AncVisits[i].week).Valid?);
    }
    AncVisitsInRange(due);
    if r.Normal? {
      forall i | 0 <= i < |AncVisits|
        ensures r.value[i].week == AncVisits[i].week && r.value[i].visit == AncVisits[i].visit
      {
        assert f(AncVisits[i]) == Normal(r.value[i]);
      }
    }
  }

  /** The day a date string names. */
  function DayOf(s: string): int
    requires ParseDate(s).Valid?
  {
    Day(ParseDate(s).ms)
  }

  /** A string that denotes day `n` is a valid date on day `n`. */
  lemma DenotesDayOf(s: string, n: int)
    requires DenotesDay(s, n)
    ensures ParseDate(s).Valid? && DayOf(s) == n
  {
    MidnightDay(n);
  }

  /** A written antenatal row denotes the day `(40 - week) * 7` days before
      the due date. */
  lemma AncRowDay(due: Date, v: AncVisit)
    requires AncRowOf(due, v).Normal?
    ensures due.Valid? && DenotesDay(AncRowOf(due, v).value.date, Day(due.ms) - AncOffset(v.week))
  {
    var t := VisitDate(due, v.week);
    assert due.Valid? && t.Valid? && DenotesDay(AncRowOf(due, v).value.date, Day(t.ms));
    assert Day(t.ms) == Day(due.ms) - AncOffset(v.week) by {
      VisitDateShift(due, v.week);
      DayShift(due.ms, -AncOffset(v.week));
    }
  }

  /** The weeks of the antenatal table. */
  lemma AncWeeks()
    ensures |AncVisits| == 4
    ensures AncOffset(AncVisits[0].week) == 224 && AncOffset(AncVisits[1].week) == 140
    ensures AncOffset(AncVisits[2].week) == 84 && AncOffset(AncVisits[3].week) == 28
  {
  }

  /** Each antenatal visit falls `(40 - week) * 7` days before the due date:
      224, 140, 84 and 28 days. */
  lemma MaternalScheduleDays(dueDate: string)
    requires MaternalSchedule(dueDate).Normal?
    ensures var rows := MaternalSchedule(dueDate).value;
      |rows| == 4 && forall i :: 0 <= i < 4 ==> DenotesDay(rows[i].date, DayOf(dueDate) - AncOffset(AncVisits[i].week))
  {
    var due := ParseDate(dueDate);
    var rows := MaternalSchedule(dueDate).value;
    var f := AncRowFn(due);
    MaternalScheduleShape(dueDate);
    forall i | 0 <= i < 4
      ensures DenotesDay(rows[i].date, DayOf(dueDate) - AncOffset(AncVisits[i].week))
    {
      MapOrThrowAt(f, AncVisits, i);
      AncRowDay(due, AncVisits[i]);
    }
  }

  /** The four antenatal dates are valid, strictly increasing and all
      before the due date. */
  lemma MaternalScheduleOrdered(dueDate: string)
    requires MaternalSchedule(dueDate).Normal?
    ensures var rows := MaternalSchedule(dueDate).value;
      |rows| == 4 && Increasing(rows, DayOf(dueDate))
  {
    var rows := MaternalSchedule(dueDate).value;
    var d := DayOf(dueDate);
    assert |rows| == 4 && forall i :: 0 <= i < 4 ==> DenotesDay(rows[i].date, d - AncOffset(AncVisits[i].week)) by {
      MaternalScheduleDays(dueDate);
    }
    AncWeeks();
    DaysIncreasing(rows, d);
  }

  /** Four rows whose dates are valid and strictly increase, all before day `d`. */
  predicate Increasing(rows: seq<AncRow>, d: int)
    requires |rows| == 4
  {
    (forall i :: 0 <= i < 4 ==> ParseDate(rows[i].date).Valid?)
    && DayOf(rows[0].date) < DayOf(rows[1].date) < DayOf(rows[2].date) < DayOf(rows[3].date) < d
  }

  /** Rows dated 224, 140, 84 and 28 days before day `d` are increasing. */
  lemma DaysIncreasing(rows: seq<AncRow>, d: int)
    requires |rows| == 4 && |AncVisits| == 4
    requires forall i :: 0 <= i < 4 ==> DenotesDay(rows[i].date, d - AncOffset(AncVisits[i].week))
    requires AncOffset(AncVisits[0].week) == 224 && AncOffset(AncVisits[1].week) == 140
    requires AncOffset(AncVisits[2].week) == 84 && AncOffset(AncVisits[3].week) == 28
    ensures Increasing(rows, d)
  {
    DenotesDayOf(rows[0].date, d - 224);
    DenotesDayOf(rows[1].date, d - 140);
    DenotesDayOf(rows[2].date, d - 84);
    DenotesDayOf(rows[3].date, d - 28);
  }

  /** A row of the vaccination table: the age label and the vaccines due. */
  datatype Vaccination = Vaccination(age: string, vaccine: string)

  const Vaccinations: seq<Vaccination> := [
    Vaccination("জন্ম", "বিসিজি, ওপিভি-০, হেপাটাইটিস বি-১"),
    Vaccination("৬ সপ্তাহ", "পেন্টাভ্যালেন্ট-১, ওপিভি-১, পিসিভি-১"),
    Vaccination("১০ সপ্তাহ", "পেন্টাভ্যালেন্ট-২, ওপিভি-২"),
    Vaccination("১৪ সপ্তাহ", "পেন্টাভ্যালেন্ট-৩, ওপিভি-৩, পিসিভি-২"),
    Vaccination("৯ মাস", "এমআর-১"),
    Vaccination("১৫ মাস", "এমআর-২")
  ]

  /** `'due'` or `'upcoming'`. */
  datatype VaxStatus = Due | Upcoming

  /** A vaccination row as the schedule returns it, with its due date as
      `YYYY-MM-DD` and its status at the time of the call. */
  datatype VaxRow = VaxRow(age: string, vaccine: string, dueDate: string, status: VaxStatus)

  /** The label of the at-birth row, and the words for weeks and months. */
  const BirthLabel: string := "জন্ম"
  const WeekWord: string := "সপ্তাহ"
  const MonthWord: string := "মাস"

  /** How an age label's count is read. `EcmaParseInt` is `parseInt(label)`
      as the component calls it; `BengaliAware` first writes Bengali digits
      as ASCII digits, which is what the table's labels need. */
  datatype NumeralReader = EcmaParseInt | BengaliAware

  predicate IsBengaliDigit(c: char)
  {
    '\U{09E6}' <= c <= '\U{09EF}'
  }

  /** A Bengali digit as the ASCII digit of the same value; any other
      character unchanged. */
  function LatinDigit(c: char): (d: char)
    ensures IsBengaliDigit(c) ==> IsAsciiDigit(d) && DigitValue(d) == (c as int) - 0x09E6
    ensures !IsBengaliDigit(c) ==> d == c
  {
    if IsBengaliDigit(c) then DigitChar((c as int) - 0x09E6) else c
  }

  function LatinDigits(s: string): (r: string)
    ensures |r| == |s| && forall i :: 0 <= i < |s| ==> r[i] == LatinDigit(s[i])
  {
    seq(|s|, i requires 0 <= i < |s| => LatinDigit(s[i]))
  }

  /** The count in an age label. */
  function ReadCount(reader: NumeralReader, age: string): Num
  {
    match reader
    case EcmaParseInt => ParseInt(age)
    case BengaliAware => ParseInt(LatinDigits(age))
  }

  /** The due date of the row with label `age`, computed on a copy of the
      birth date: the birth date itself for the at-birth row, `setDate` by
      seven days per week for a week label, `setMonth` for a month label. */
  function VaxDate(reader: NumeralReader, birth: Date, age: string): Date
  {
    if age == BirthLabel then birth
    else if Contains(age, WeekWord) then SetDate(birth, Add(GetDate(birth), Times(ReadCount(reader, age), 7)))
    else if Contains(age, MonthWord) then SetMonth(birth, Add(GetMonth(birth), ReadCount(reader, age)))
    else birth
  }

  /** One vaccination row: its date is written out (throwing a RangeError
      when invalid) and its status is `Due` once `now` has reached it. */
  function VaxRowOf(reader: NumeralReader, birth: Date, now: int, v: Vaccination): (r: Completion<VaxRow>)
    ensures r.Throw? ==> r.error == RangeError
    ensures r.Normal? <==> VaxDate(reader, birth, v.age).Valid?
    ensures r.Normal? ==>
      r.value.age == v.age && r.value.vaccine == v.vaccine
      && DenotesDay(r.value.dueDate, Day(VaxDate(reader, birth, v.age).ms))
      && (r.value.status == Due <==> now >= VaxDate(reader, birth, v.age).ms)
  {
    var dueDate := VaxDate(reader, birth, v.age);
    match ToIsoDate(dueDate)
    case Throw(e) => Throw(e)
    case Normal(date) =>
      ParseIsoDate(dueDate);
      Normal(VaxRow(v.age, v.vaccine, date, if NotBefore(now, dueDate) then Due else Upcoming))
  }

  /** The callback `getVaccinationSchedule` maps over the table. */
  function VaxRowFn(reader: NumeralReader, birth: Date, now: int): Vaccination -> Completion<VaxRow>
  {
    v => VaxRowOf(reader, birth, now, v)
  }

  /** `getVaccinationSchedule(birthDate)` at time `now`. */
  function VaccinationSchedule(reader: NumeralReader, birthDate: string, now: int): Completion<seq<VaxRow>>
  {
    MapOrThrow(VaxRowFn(reader, ParseDate(birthDate), now), Vaccinations)
  }

  /** The vaccination schedule throws only a RangeError; otherwise it has
      one row per table row, in table order. */
  lemma VaccinationScheduleShape(reader: NumeralReader, birthDate: string, now: int)
    ensures var r := VaccinationSchedule(reader, birthDate, now);
      (r.Throw? ==> r.error == RangeError)
      && (r.Normal? ==>
            |r.value| == |Vaccinations|
            && forall i :: 0 <= i < |Vaccinations| ==> r.value[i].age == Vaccinations[i].age && r.value[i].vaccine == Vaccinations[i].vaccine)
  {
    var f := VaxRowFn(reader, ParseDate(birthDate), now);
    var r := MapOrThrow(f, Vaccinations);
    MapOrThrowSpec(f, Vaccinations);
    if r.Throw? {
      var i :| 0 <= i < |Vaccinations| && f(Vaccinations[i]) == Throw(r.error);
    } else {
      forall i | 0 <= i < |Vaccinations|
        ensures r.value[i].age == Vaccinations[i].age && r.value[i].vaccine == Vaccinations[i].vaccine
      {
        assert f(Vaccinations[i]) == Normal(r.value[i]);
      }
    }
  }

  /** The row of `Vaccinations` at index `i` as the schedule computes it. */
  lemma ScheduleRow(reader: NumeralReader, birthDate: string, now: int, i: int)
    requires VaccinationSchedule(reader, birthDate, now).Normal? && 0 <= i < |Vaccinations|
    ensures var birth := ParseDate(birthDate);
      var row := VaccinationSchedule(reader, birthDate, now).value[i];
      VaxDate(reader, birth, Vaccinations[i].age).Valid?
      && DenotesDay(row.dueDate, Day(VaxDate(reader, birth, Vaccinations[i].age).ms))
      && (row.status == Due <==> now >= VaxDate(reader, birth, Vaccinations[i].age).ms)
  {
    var birth := ParseDate(birthDate);
    var f := VaxRowFn(reader, birth, now);
    MapOrThrowAt(f, Vaccinations, i);
  }

  /** The at-birth row is due on the birth date itself: a date input's
      `YYYY-MM-DD` value comes back unchanged. */
  lemma BirthRowDate(reader: NumeralReader, birthDate: string, now: int)
    requires VaccinationSchedule(reader, birthDate, now).Normal?
    ensures var row := VaccinationSchedule(reader, birthDate, now).value[0];
      row.age == BirthLabel && ParseDate(birthDate).Valid?
      && row.dueDate == ToIsoDate(ParseDate(birthDate)).value
      && (IsCalendarDate(birthDate) ==> row.dueDate == birthDate)
  {
    var birth := ParseDate(birthDate);
    var f := VaxRowFn(reader, birth, now);
    MapOrThrowAt(f, Vaccinations, 0);
    if IsCalendarDate(birthDate) {
      IsoDateOfParse(birthDate);
    }
  }

  /** A week label whose count reads as `n` puts the date `7 * n` days after
      the birth date. */
  lemma WeekLabelDate(reader: NumeralReader, birth: Date, age: string, n: int)
    requires birth.Valid? && age != BirthLabel && Contains(age, WeekWord)
    requires ReadCount(reader, age) == Int(n)
    ensures VaxDate(reader, birth, age) == TimeClip(birth.ms + Midnight(7 * n))
  {
    SetDateAddDays(birth, n * 7);
  }

  /** A month label whose count reads as `n >= 0` moves the birth instant
      `t` by `n` calendar months (`MonthsOn`), and is in range when `t` plus
      `31 * n` days is. */
  lemma MonthLabelDate(reader: NumeralReader, t: TimeValue, age: string, n: nat)
    requires age != BirthLabel && !Contains(age, WeekWord) && Contains(age, MonthWord)
    requires ReadCount(reader, age) == Int(n)
    ensures t + Midnight(31 * n) <= MaxTime ==> VaxDate(reader, Valid(t), age).Valid?
    ensures VaxDate(reader, Valid(t), age).Valid? ==> MonthsOn(t, n, VaxDate(reader, Valid(t), age).ms)
  {
    MonthLabelSetsMonth(reader, t, age, n);
    if t + Midnight(31 * n) <= MaxTime {
      SetMonthByInRange(t, n);
    }
    SetMonthBy(t, n);
  }

  /** A month label whose count reads as `n` calls `setMonth` with the birth
      month plus `n`. */
  lemma MonthLabelSetsMonth(reader: NumeralReader, t: TimeValue, age: string, n: nat)
    requires age != BirthLabel && !Contains(age, WeekWord) && Contains(age, MonthWord)
    requires ReadCount(reader, age) == Int(n)
    ensures VaxDate(reader, Valid(t), age) == SetMonth(Valid(t), Int(CivilFromDay(Day(t)).month + n))
  {
    var count := Add(GetMonth(Valid(t)), ReadCount(reader, age));
    assert VaxDate(reader, Valid(t), age) == SetMonth(Valid(t), count);
    assert count == Int(CivilFromDay(Day(t)).month + n);
  }

  /** A week or month label whose count does not read makes the date invalid. */
  lemma UnreadableLabel(reader: NumeralReader, birth: Date, age: string)
    requires age != BirthLabel && (Contains(age, WeekWord) || Contains(age, MonthWord))
    requires ReadCount(reader, age) == NaN
    ensures VaxDate(reader, birth, age) == Invalid
  {
  }

  /** Every label after the at-birth one is a week label (rows 1 to 3) or a
      month label (rows 4 and 5) that starts with a Bengali digit, so
      `parseInt` reads none of them. */
  lemma ShippedLabelsUnreadable(i: int)
    requires 1 <= i < 6
    ensures Vaccinations[i].age != BirthLabel
    ensures i <= 3 ==> Contains(Vaccinations[i].age, WeekWord)
    ensures i >= 4 ==> !Contains(Vaccinations[i].age, WeekWord) && Contains(Vaccinations[i].age, MonthWord)
    ensures IsBengaliDigit(Vaccinations[i].age[0])
    ensures ReadCount(EcmaParseInt, Vaccinations[i].age) == NaN
  {
    if i == 1 {
      SixWeeksLabel();
    } else if i == 2 {
      TenWeeksLabel();
    } else if i == 3 {
      FourteenWeeksLabel();
    } else if i == 4 {
      NineMonthsLabel();
    } else if i == 5 {
      FifteenMonthsLabel();
    }
  }

  /** A label made of a Bengali numeral, a space and a word contains the
      word, starts with a Bengali digit and does not parse. */
  lemma LabelShape(digits: string, word: string)
    requires digits != [] && IsBengaliDigit(digits[0])
    ensures var age := digits + " " + word;
      age != BirthLabel && Contains(age, word) && IsBengaliDigit(age[0]) && ReadCount(EcmaParseInt, age) == NaN
  {
    var age := digits + " " + word;
    assert age == digits + " " + word + "";
    ContainsInfix(digits + " ", word, "");
    assert age[0] == digits[0];
    assert age != BirthLabel by {
      assert !IsBengaliDigit(BirthLabel[0]);
    }
    ParseIntNoLeadingDigit(age);
  }

  lemma SixWeeksLabel()
    ensures var age := Vaccinations[1].age;
      age != BirthLabel && Contains(age, WeekWord) && IsBengaliDigit(age[0]) && ReadCount(EcmaParseInt, age) == NaN
  {
    var age := Vaccinations[1].age;
    assert age == "৬" + " " + WeekWord;
    LabelShape("৬", WeekWord);
  }

  lemma TenWeeksLabel()
    ensures var age := Vaccinations[2].age;
      age != BirthLabel && Contains(age, WeekWord) && IsBengaliDigit(age[0]) && ReadCount(EcmaParseInt, age) == NaN
  {
    var age := Vaccinations[2].age;
    assert age == "১০" + " " + WeekWord;
    LabelShape("১০", WeekWord);
  }

  lemma FourteenWeeksLabel()
    ensures var age := Vaccinations[3].age;
      age != BirthLabel && Contains(age, WeekWord) && IsBengaliDigit(age[0]) && ReadCount(EcmaParseInt, age) == NaN
  {
    var age := Vaccinations[3].age;
    assert age == "১৪" + " " + WeekWord;
    LabelShape("১৪", WeekWord);
  }

  lemma NineMonthsLabel()
    ensures var age := Vaccinations[4].age;
      age != BirthLabel && Contains(age, MonthWord) && !Contains(age, WeekWord) && IsBengaliDigit(age[0]) && ReadCount(EcmaParseInt, age) == NaN
  {
    var age := Vaccinations[4].age;
    assert age == "৯" + " " + MonthWord;
    LabelShape("৯", MonthWord);
  }

  lemma FifteenMonthsLabel()
    ensures var age := Vaccinations[5].age;
      age != BirthLabel && Contains(age, MonthWord) && !Contains(age, WeekWord) && IsBengaliDigit(age[0]) && ReadCount(EcmaParseInt, age) == NaN
  {
    var age := Vaccinations[5].age;
    assert age == "১৫" + " " + MonthWord;
    LabelShape("১৫", MonthWord);
    assert !Contains(age, WeekWord) by {
      assert |age| <= |WeekWord| && age[0] != WeekWord[0];
      assert age[..|WeekWord|] != WeekWord;
    }
  }

  /** As written, the vaccination schedule always throws a RangeError: the
      row for six weeks reads a NaN count and its date cannot be written. */
  lemma VaccinationScheduleAlwaysThrows(birthDate: string, now: int)
    ensures VaccinationSchedule(EcmaParseInt, birthDate, now) == Throw(RangeError)
  {
    var birth := ParseDate(birthDate);
    ShippedLabelsUnreadable(1);
    UnreadableLabel(EcmaParseInt, birth, Vaccinations[1].age);
    var f := VaxRowFn(EcmaParseInt, birth, now);
    MapOrThrowFails(f, Vaccinations, 1);
    VaccinationScheduleShape(EcmaParseInt, birthDate, now);
  }

  /** Bengali digits followed by text without Bengali digits: the digits are
      written in ASCII and the rest is kept. */
  lemma LatinDigitsSplit(digits: string, rest: string)
    requires forall i :: 0 <= i < |rest| ==> !IsBengaliDigit(rest[i])
    ensures LatinDigits(digits + rest) == LatinDigits(digits) + rest
  {
    var l := LatinDigits(digits + rest);
    assert forall i :: |digits| <= i < |l| ==> l[i] == rest[i - |digits|];
  }

  /** A label made of Bengali digits, a space and a word without Bengali
      digits reads, once the digits are written in ASCII, as the number
      those digits denote. */
  lemma LabelCount(digits: string, latin: string, word: string)
    requires forall k :: 0 <= k < |word| ==> !IsBengaliDigit(word[k])
    requires LatinDigits(digits) == latin && latin != [] && AllAsciiDigits(latin)
    ensures ReadCount(BengaliAware, digits + " " + word) == Int(DigitsValue(latin))
  {
    var rest := " " + word;
    assert digits + " " + word == digits + rest;
    assert forall k :: 0 <= k < |rest| ==> !IsBengaliDigit(rest[k]) by {
      assert forall k :: 1 <= k < |rest| ==> rest[k] == word[k - 1];
    }
    LatinDigitsSplit(digits, rest);
    ParseIntDecimalPrefix(latin, rest);
  }

  /** The counts the labels are meant to carry, row by row (none for the
      at-birth row). */
  const LabelCounts: seq<int> := [0, 6, 10, 14, 9, 15]

  /** With Bengali digits read as digits, the shipped labels give 6, 10 and
      14 weeks and 9 and 15 months. */
  lemma ShippedLabelCounts(i: int)
    requires 1 <= i < 6
    ensures ReadCount(BengaliAware, Vaccinations[i].age) == Int(LabelCounts[i])
  {
    if i == 1 {
      CountSixWeeks();
    } else if i == 2 {
      CountTenWeeks();
    } else if i == 3 {
      CountFourteenWeeks();
    } else if i == 4 {
      CountNineMonths();
    } else if i == 5 {
      CountFifteenMonths();
    }
  }

  lemma CountSixWeeks()
    ensures ReadCount(BengaliAware, Vaccinations[1].age) == Int(6)
  {
    assert Vaccinations[1].age == "৬" + " " + WeekWord;
    assert LatinDigits("৬") == "6";
    LabelCount("৬", "6", WeekWord);
    assert DigitsValue("6") == 6;
  }

  lemma CountTenWeeks()
    ensures ReadCount(BengaliAware, Vaccinations[2].age) == Int(10)
  {
    assert Vaccinations[2].age == "১০" + " " + WeekWord;
    assert LatinDigits("১০") == "10";
    LabelCount("১০", "10", WeekWord);
    assert DigitsValue("10") == 10;
  }

  lemma CountFourteenWeeks()
    ensures ReadCount(BengaliAware, Vaccinations[3].age) == Int(14)
  {
    assert Vaccinations[3].age == "১৪" + " " + WeekWord;
    assert LatinDigits("১৪") == "14";
    LabelCount("১৪", "14", WeekWord);
    assert DigitsValue("14") == 14;
  }

  lemma CountNineMonths()
    ensures ReadCount(BengaliAware, Vaccinations[4].age) == Int(9)
  {
    assert Vaccinations[4].age == "৯" + " " + MonthWord;
    assert LatinDigits("৯") == "9";
    LabelCount("৯", "9", MonthWord);
    assert DigitsValue("9") == 9;
  }

  lemma CountFifteenMonths()
    ensures ReadCount(BengaliAware, Vaccinations[5].age) == Int(15)
  {
    assert Vaccinations[5].age == "১৫" + " " + MonthWord;
    assert LatinDigits("১৫") == "15";
    LabelCount("১৫", "15", MonthWord);
    assert DigitsValue("15") == 15;
  }

  /** With Bengali digits read as digits, a valid birth date at least 465
      days inside the time-value range gets all six dates: the birth date,
      then 7 days per week of each week label (42, 70 and 98 days), then the
      days 9 and 15 calendar months on, 28 to 31 days per month after it
      (`CorrectedMonthRow` gives those two dates exactly). */
  lemma CorrectedVaccinationSchedule(birthDate: string, now: int)
    requires ParseDate(birthDate).Valid? && ParseDate(birthDate).ms + Midnight(465) <= MaxTime
    ensures var r := VaccinationSchedule(BengaliAware, birthDate, now);
      r.Normal? && |r.value| == 6
      && forall i :: 0 <= i < 6 ==>
        ParseDate(r.value[i].dueDate).Valid?
        && (i == 0 ==> DayOf(r.value[i].dueDate) == DayOf(birthDate))
        && (1 <= i <= 3 ==> DayOf(r.value[i].dueDate) == DayOf(birthDate) + 7 * LabelCounts[i])
        && (4 <= i ==> 28 * LabelCounts[i] <= DayOf(r.value[i].dueDate) - DayOf(birthDate) <= 31 * LabelCounts[i])
  {
    var birth := ParseDate(birthDate);
    var f := VaxRowFn(BengaliAware, birth, now);
    forall i | 0 <= i < |Vaccinations|
      ensures f(Vaccinations[i]).Normal?
    {
      VaxDateCorrected(birth, i);
    }
    MapOrThrowCompletes(f, Vaccinations);
    var r := VaccinationSchedule(BengaliAware, birthDate, now);
    forall i | 0 <= i < 6
      ensures ParseDate(r.value[i].dueDate).Valid?
        && (i == 0 ==> DayOf(r.value[i].dueDate) == DayOf(birthDate))
        && (1 <= i <= 3 ==> DayOf(r.value[i].dueDate) == DayOf(birthDate) + 7 * LabelCounts[i])
        && (4 <= i ==> 28 * LabelCounts[i] <= DayOf(r.value[i].dueDate) - DayOf(birthDate) <= 31 * LabelCounts[i])
    {
      ScheduleRow(BengaliAware, birthDate, now, i);
      VaxDateCorrected(birth, i);
      DenotesDayOf(r.value[i].dueDate, Day(VaxDate(BengaliAware, birth, Vaccinations[i].age).ms));
      if i == 0 {
        assert Vaccinations[0].age == BirthLabel;
      }
    }
  }

  /** `due` names the day `n` calendar months after the day `birthDate` names. */
  ghost predicate DueMonthsLater(birthDate: string, n: int, due: string)
  {
    0 <= n && ParseDate(birthDate).Valid? && ParseDate(due).Valid?
    && MonthsLater(DayOf(birthDate), n, DayOf(due))
  }

  /** With Bengali digits read as digits and a birth date at least 465 days
      inside the range, rows 4 and 5 are due on the day 9 and 15 calendar
      months after the birth date: the same day of the month when that month
      has it, otherwise rolled into the next month. */
  lemma CorrectedMonthRow(birthDate: string, now: int, i: int) returns (rows: seq<VaxRow>)
    requires ParseDate(birthDate).Valid? && ParseDate(birthDate).ms + Midnight(465) <= MaxTime
    requires 4 <= i <= 5
    ensures VaccinationSchedule(BengaliAware, birthDate, now) == Normal(rows) && |rows| == 6
    ensures DueMonthsLater(birthDate, LabelCounts[i], rows[i].dueDate)
  {
    CorrectedVaccinationSchedule(birthDate, now);
    var birth := ParseDate(birthDate);
    var r := VaccinationSchedule(BengaliAware, birthDate, now);
    rows := r.value;
    ScheduleRow(BengaliAware, birthDate, now, i);
    MonthRowCorrected(birth, i);
    DenotesDayOf(r.value[i].dueDate, Day(VaxDate(BengaliAware, birth, Vaccinations[i].age).ms));
  }

  /** The date of row `i` with Bengali digits read as digits, for a birth
      date at least 465 days inside the range: the birth date itself, seven
      days per week of the label's count, or the label's count of calendar
      months later. */
  lemma VaxDateCorrected(birth: Date, i: int)
    requires birth.Valid? && birth.ms + Midnight(465) <= MaxTime && 0 <= i < 6
    ensures var t := VaxDate(BengaliAware, birth, Vaccinations[i].age);
      t.Valid? && (i == 0 ==> Day(t.ms) == Day(birth.ms))
      && (1 <= i <= 3 ==> Day(t.ms) == Day(birth.ms) + 7 * LabelCounts[i])
      && (4 <= i ==> MonthsOn(birth.ms, LabelCounts[i], t.ms))
  {
    if i == 0 {
      assert Vaccinations[0].age == BirthLabel;
    } else if i <= 3 {
      WeekRowCorrected(birth, i);
    } else {
      MonthRowCorrected(birth, i);
    }
  }

  /** Rows 1 to 3 fall 6, 10 and 14 weeks after the birth date. */
  lemma WeekRowCorrected(birth: Date, i: int)
    requires birth.Valid? && birth.ms + Midnight(465) <= MaxTime && 1 <= i <= 3
    ensures var t := VaxDate(BengaliAware, birth, Vaccinations[i].age);
      t.Valid? && Day(t.ms) == Day(birth.ms) + 7 * LabelCounts[i]
  {
    var age := Vaccinations[i].age;
    var n := LabelCounts[i];
    assert n <= 14;
    ShippedLabelsUnreadable(i);
    ShippedLabelCounts(i);
    WeekLabelDate(BengaliAware, birth, age, n);
    DayShift(birth.ms, 7 * n);
  }

  /** Rows 4 and 5 fall 9 and 15 calendar months after the birth date. */
  lemma MonthRowCorrected(birth: Date, i: int)
    requires birth.Valid? && birth.ms + Midnight(465) <= MaxTime && 4 <= i <= 5
    ensures var t := VaxDate(BengaliAware, birth, Vaccinations[i].age);
      t.Valid? && MonthsOn(birth.ms, LabelCounts[i], t.ms)
  {
    var age := Vaccinations[i].age;
    var n: nat := LabelCounts[i];
    assert n <= 15;
    ShippedLabelsUnreadable(i);
    ShippedLabelCounts(i);
    MonthLabelDate(BengaliAware, birth.ms, age, n);
  }

  /** `calculateWeeks(dueDate)` at time `now`:
      `Math.max(0, 40 - Math.ceil((due - now) / msPerWeek))`, NaN for an
      invalid due date. */
  function CalculateWeeks(dueDate: string, now: int): (r: Num)
    ensures r.NaN? <==> ParseDate(dueDate).Invalid?
    ensures r.Int? ==> r.value >= 0
    ensures r.Int? ==> (r.value > 40 <==> now - ParseDate(dueDate).ms >= Midnight(7))
    ensures r.Int? ==> (r.value == 0 <==> ParseDate(dueDate).ms - now > Midnight(7 * 39))
    ensures r.Int? && r.value > 0 ==>
      Midnight(7 * (40 - r.value)) >= ParseDate(dueDate).ms - now > Midnight(7 * (39 - r.value))
  {
    var diffTime := Minus(ParseDate(dueDate), now);
    var diffWeeks := if diffTime.NaN? then NaN else Int(CeilDiv(diffTime.value, 604_800_000));
    MaxZero(Sub(Int(40), diffWeeks))
  }

  /** The card code `TIKA-<certificate>-<birth date without dashes>`. */
  function CardCode(certificateNo: string, birthDate: string): string
  {
    "TIKA-" + certificateNo + "-" + RemoveChar(birthDate, '-')
  }

  /** The code is the prefix `TIKA-`, the certificate number, a dash, and
      then the birth date with every dash dropped: its other characters, each
      as often as in the date and in the date's order. */
  lemma CardCodeParts(certificateNo: string, birthDate: string)
    ensures var code := CardCode(certificateNo, birthDate);
      var k := |certificateNo| + 6;
      |code| >= k && code[..5] == "TIKA-" && code[5..k - 1] == certificateNo && code[k - 1] == '-'
      && '-' !in code[k..] && Subsequence(code[k..], birthDate)
      && multiset(code[k..]) == multiset(birthDate)['-' := 0]
  {
    var code := CardCode(certificateNo, birthDate);
    assert code[|certificateNo| + 6..] == RemoveChar(birthDate, '-');
    assert code[5..|certificateNo| + 5] == certificateNo;
    RemoveCharKeeps(birthDate, '-');
  }

  /** For a `YYYY-MM-DD` birth date the code ends in the eight digits
      `YYYYMMDD`. */
  lemma CardCodeOfDate(certificateNo: string, birthDate: string)
    requires IsShortDateForm(birthDate)
    ensures CardCode(certificateNo, birthDate)
      == "TIKA-" + certificateNo + "-" + birthDate[..4] + birthDate[5..7] + birthDate[8..]
  {
    var y, m, d := birthDate[..4], birthDate[5..7], birthDate[8..];
    ShortFormSplit(birthDate);
    RemoveCharAppend(y + "-" + m + "-", d, '-');
    RemoveCharAppend(y + "-" + m, "-", '-');
    RemoveCharAppend(y + "-", m, '-');
    RemoveCharAppend(y, "-", '-');
    RemoveCharAbsent(y, '-');
    RemoveCharAbsent(m, '-');
    RemoveCharAbsent(d, '-');
    assert RemoveChar("-", '-') == "";
  }
}
