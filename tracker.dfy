/** The maternal and child health tracker around its schedules: the 0-3 day
    notification window, the antenatal "completed" badge, the vaccination
    card, and the two save handlers that write the key-value store
    (src/components/MaternalChildTracker.jsx). */
module Tracker {
  import opened Js
  import opened Text
  import opened JsDate
  import opened Schedules

  /** Where a notification comes from: `'maternal'` or `'vaccination'`. */
  datatype NoticeKind = MaternalType | VaccinationType

  /** A dated checkpoint of either schedule, as the notification check sees
      it: its source, the text shown (visit or vaccines) and its date. */
  datatype Checkpoint = Checkpoint(kind: NoticeKind, title: string, date: string)

  /** A notification: its source, its message and the checkpoint's date. */
  datatype Notice = Notice(kind: NoticeKind, message: string, date: string)

  function AncCheckpoints(rows: seq<AncRow>): (items: seq<Checkpoint>)
    ensures |items| == |rows|
    ensures forall i :: 0 <= i < |rows| ==> items[i] == Checkpoint(MaternalType, rows[i].visit, rows[i].date)
  {
    seq(|rows|, i requires 0 <= i < |rows| => Checkpoint(MaternalType, rows[i].visit, rows[i].date))
  }

  function VaxCheckpoints(rows: seq<VaxRow>): (items: seq<Checkpoint>)
    ensures |items| == |rows|
    ensures forall i :: 0 <= i < |rows| ==> items[i] == Checkpoint(VaccinationType, rows[i].vaccine, rows[i].dueDate)
  {
    seq(|rows|, i requires 0 <= i < |rows| => Checkpoint(VaccinationType, rows[i].vaccine, rows[i].dueDate))
  }

  /** `Math.ceil((new Date(date) - today) / msPerDay)`. */
  function DaysLeft(date: string, now: int): Num
  {
    DaysUntil(ParseDate(date), now)
  }

  /** `daysUntil >= 0 && daysUntil <= 3` (false for NaN). */
  predicate InWindow(date: string, now: int)
  {
    var d := DaysLeft(date, now);
    d.Int? && 0 <= d.value <= 3
  }

  /** The window in instants: the date is valid and lies after the moment
      one day before `now` and no later than three days after it. */
  lemma InWindowIff(date: string, now: int)
    ensures InWindow(date, now) <==>
      ParseDate(date).Valid? && now - Midnight(1) < ParseDate(date).ms <= now + Midnight(3)
  {
    var d := DaysLeft(date, now);
    if d.Int? {
      var x := ParseDate(date).ms - now;
      assert Midnight(d.value) >= x > Midnight(d.value - 1);
      if d.value < 0 {
        assert Midnight(d.value) <= Midnight(-1);
      } else if d.value > 3 {
        assert Midnight(d.value - 1) >= Midnight(3);
      }
    }
  }

  /** `'আজ'` ("today") for zero days, otherwise "<n> দিন বাকি" ("n days left"). */
  function DaysText(d: int): (s: string)
    requires 0 <= d <= 3
    ensures s == "আজ" <==> d == 0
  {
    if d == 0 then "আজ" else [DigitChar(d)] + " দিন বাকি"
  }

  /** The message for a checkpoint `d` days away. */
  function NoticeOf(item: Checkpoint, d: int): (n: Notice)
    requires 0 <= d <= 3
    ensures n.kind == item.kind && n.date == item.date
  {
    var prefix := if item.kind == MaternalType then "এএনসি ভিজিট: " else "টিকা: ";
    Notice(item.kind, prefix + item.title + " (" + DaysText(d) + ")", item.date)
  }

  /** The notifications the `forEach` pushes for `items`, in order. */
  function Notices(items: seq<Checkpoint>, now: int): seq<Notice>
  {
    if items == [] then []
    else
      var last := items[|items| - 1];
      Notices(items[..|items| - 1], now)
        + (if InWindow(last.date, now) then [NoticeOf(last, DaysLeft(last.date, now).value)] else [])
  }

  /** A notification is there exactly when some checkpoint is in the window,
      and it carries that checkpoint's message. */
  lemma {:induction false} NoticesMembership(items: seq<Checkpoint>, now: int, n: Notice)
    ensures n in Notices(items, now) <==> Produces(items, now, n)
  {
    if items != [] {
      var k := |items| - 1;
      var init := items[..k];
      var last := items[k];
      NoticesMembership(init, now, n);
      var tail := if InWindow(last.date, now) then [NoticeOf(last, DaysLeft(last.date, now).value)] else [];
      assert Notices(items, now) == Notices(init, now) + tail;
      if n in Notices(init, now) {
        var i :| 0 <= i < |init| && InWindow(init[i].date, now) && n == NoticeOf(init[i], DaysLeft(init[i].date, now).value);
        assert init[i] == items[i];
      } else if n in tail {
        assert InWindow(items[k].date, now) && n == NoticeOf(items[k], DaysLeft(items[k].date, now).value);
      }
      if Produces(items, now, n) {
        var i :| 0 <= i < |items| && InWindow(items[i].date, now) && n == NoticeOf(items[i], DaysLeft(items[i].date, now).value);
        if i < k {
          assert init[i] == items[i];
          assert Produces(init, now, n);
        } else {
          assert i == k && items[i] == last;
          assert InWindow(last.date, now);
          assert tail == [NoticeOf(last, DaysLeft(last.date, now).value)];
        }
      }
    }
  }

  /** Some checkpoint in the window carries notification `n`. */
  ghost predicate Produces(items: seq<Checkpoint>, now: int, n: Notice)
  {
    exists i :: 0 <= i < |items| && InWindow(items[i].date, now)
      && n == NoticeOf(items[i], DaysLeft(items[i].date, now).value)
  }

  /** Notifications keep the order of their checkpoints across concatenation. */
  lemma {:induction false} NoticesAppend(a: seq<Checkpoint>, b: seq<Checkpoint>, now: int)
    ensures Notices(a + b, now) == Notices(a, now) + Notices(b, now)
    decreases |b|
  {
    if b == [] {
      assert a + b == a;
    } else {
      var b0 := b[..|b| - 1];
      assert (a + b)[..|a + b| - 1] == a + b0;
      NoticesAppend(a, b0, now);
    }
  }

  /** Every notification comes from a checkpoint of the same kind, and
      there are never more notifications than checkpoints. */
  lemma {:induction false} NoticesKinds(items: seq<Checkpoint>, now: int, k: NoticeKind)
    requires forall i :: 0 <= i < |items| ==> items[i].kind == k
    ensures |Notices(items, now)| <= |items|
    ensures forall j :: 0 <= j < |Notices(items, now)| ==> Notices(items, now)[j].kind == k
  {
    if items != [] {
      NoticesKinds(items[..|items| - 1], now, k);
    }
  }

  /** The antenatal part of the check: nothing without a due date. */
  function MaternalNotices(dueDate: string, now: int): (r: Completion<seq<Notice>>)
    ensures r.Normal? ==> forall j :: 0 <= j < |r.value| ==> r.value[j].kind == MaternalType
  {
    if dueDate == "" then Normal([])
    else match MaternalSchedule(dueDate)
      case Throw(e) => Throw(e)
      case Normal(rows) =>
        NoticesKinds(AncCheckpoints(rows), now, MaternalType);
        Normal(Notices(AncCheckpoints(rows), now))
  }

  /** The vaccination part of the check: nothing without a birth date. */
  function VaccinationNotices(reader: NumeralReader, birthDate: string, now: int): (r: Completion<seq<Notice>>)
    ensures r.Normal? ==> forall j :: 0 <= j < |r.value| ==> r.value[j].kind == VaccinationType
  {
    if birthDate == "" then Normal([])
    else match VaccinationSchedule(reader, birthDate, now)
      case Throw(e) => Throw(e)
      case Normal(rows) =>
        NoticesKinds(VaxCheckpoints(rows), now, VaccinationType);
        Normal(Notices(VaxCheckpoints(rows), now))
  }

  /** `checkUpcomingNotifications` at time `now`, as a value: the antenatal
      notifications, then the vaccination ones; a schedule that throws ends
      the check. */
  function UpcomingNotices(reader: NumeralReader, dueDate: string, birthDate: string, now: int): Completion<seq<Notice>>
  {
    match MaternalNotices(dueDate, now)
    case Throw(e) => Throw(e)
    case Normal(m) =>
      match VaccinationNotices(reader, birthDate, now)
      case Throw(e) => Throw(e)
      case Normal(v) => Normal(m + v)
  }

  /** Antenatal notifications come before vaccination ones. */
  lemma UpcomingOrder(reader: NumeralReader, dueDate: string, birthDate: string, now: int)
    requires UpcomingNotices(reader, dueDate, birthDate, now).Normal?
    ensures var r := UpcomingNotices(reader, dueDate, birthDate, now).value;
      forall i, j :: 0 <= i < j < |r| && r[i].kind == VaccinationType ==> r[j].kind == VaccinationType
  {
    var m := MaternalNotices(dueDate, now).value;
    var v := VaccinationNotices(reader, birthDate, now).value;
    var r := UpcomingNotices(reader, dueDate, birthDate, now).value;
    assert r == m + v;
    forall i, j | 0 <= i < j < |r| && r[i].kind == VaccinationType
      ensures r[j].kind == VaccinationType
    {
      assert i >= |m|;
    }
  }

  /** With `parseInt` reading the labels, a saved birth date makes the
      check throw, so the notification list is never replaced. */
  lemma UpcomingThrowsWithBirthDate(dueDate: string, birthDate: string, now: int)
    requires birthDate != ""
    ensures UpcomingNotices(EcmaParseInt, dueDate, birthDate, now) == Throw(RangeError)
  {
    VaccinationScheduleAlwaysThrows(birthDate, now);
    MaternalScheduleShape(dueDate);
  }

  /** The notification check with its two `forEach` loops pushing onto `upcoming`. */
  method CheckUpcomingNotifications(reader: NumeralReader, dueDate: string, birthDate: string, now: int)
    returns (r: Completion<seq<Notice>>)
    ensures r == UpcomingNotices(reader, dueDate, birthDate, now)
  {
    var maternal := CheckMaternal(dueDate, now);
    if maternal.Throw? {
      return maternal;
    }
    var upcoming := maternal.value;
    var vaccination := CheckVaccination(reader, birthDate, now);
    if vaccination.Throw? {
      return vaccination;
    }
    upcoming := upcoming + vaccination.value;
    r := Normal(upcoming);
  }

  /** The first `forEach`, over the antenatal schedule when a due date is set. */
  method CheckMaternal(dueDate: string, now: int) returns (r: Completion<seq<Notice>>)
    ensures r == MaternalNotices(dueDate, now)
  {
    if dueDate == "" {
      return Normal([]);
    }
    var schedule := MaternalSchedule(dueDate);
    if schedule.Throw? {
      return Throw(schedule.error);
    }
    var items := AncCheckpoints(schedule.value);
    var upcoming := PushInWindow([], items, now);
    assert upcoming == Notices(items, now);
    r := Normal(upcoming);
  }

  /** The second `forEach`, over the vaccination schedule when a birth date is set. */
  method CheckVaccination(reader: NumeralReader, birthDate: string, now: int) returns (r: Completion<seq<Notice>>)
    ensures r == VaccinationNotices(reader, birthDate, now)
  {
    if birthDate == "" {
      return Normal([]);
    }
    var schedule := VaccinationSchedule(reader, birthDate, now);
    if schedule.Throw? {
      return Throw(schedule.error);
    }
    var items := VaxCheckpoints(schedule.value);
    var upcoming := PushInWindow([], items, now);
    assert upcoming == Notices(items, now);
    r := Normal(upcoming);
  }

  /** One `forEach`: every checkpoint whose day count is 0 to 3 pushes its
      notification onto `upcoming`. */
  method PushInWindow(upcoming: seq<Notice>, items: seq<Checkpoint>, now: int) returns (r: seq<Notice>)
    ensures r == upcoming + Notices(items, now)
  {
    r := upcoming;
    var i := 0;
    while i < |items|
      invariant 0 <= i <= |items|
      invariant r == upcoming + Notices(items[..i], now)
    {
      var daysUntil := DaysLeft(items[i].date, now);
      if daysUntil.Int? && 0 <= daysUntil.value <= 3 {
        r := r + [NoticeOf(items[i], daysUntil.value)];
      }
      assert items[..i + 1][..i] == items[..i];
      i := i + 1;
    }
    assert items[..|items|] == items;
  }

  /** An antenatal row shows as completed once `now` has reached its date
      (`new Date() >= new Date(item.date)`). */
  predicate AncCompleted(row: AncRow, now: int)
  {
    NotBefore(now, ParseDate(row.date))
  }

  /** Visit `i` shows as completed exactly when `now` has reached midnight
      (UTC) of the day `(40 - week) * 7` days before the due date. */
  lemma AncCompletedIff(dueDate: string, now: int, i: int)
    requires MaternalSchedule(dueDate).Normal? && 0 <= i < 4
    ensures AncCompleted(MaternalSchedule(dueDate).value[i], now)
      <==> now >= Midnight(DayOf(dueDate) - AncOffset(AncVisits[i].week))
  {
    MaternalScheduleDays(dueDate);
  }

  /** The vaccination card: certificate, birth date, the schedule and the
      QR code text. */
  datatype TikaCard = TikaCard(certificateNo: string, birthDate: string, vaccinations: seq<VaxRow>, qrCode: string)

  /** `generateTikaCard(certificateNo, birthDate)`: it throws when the
      schedule does. */
  function GenerateTikaCard(reader: NumeralReader, certificateNo: string, birthDate: string, now: int): (r: Completion<TikaCard>)
    ensures r.Normal? <==> VaccinationSchedule(reader, birthDate, now).Normal?
    ensures r.Throw? ==> r.error == RangeError
  {
    VaccinationScheduleShape(reader, birthDate, now);
    match VaccinationSchedule(reader, birthDate, now)
    case Throw(e) => Throw(e)
    case Normal(rows) => Normal(TikaCard(certificateNo, birthDate, rows, CardCode(certificateNo, birthDate)))
  }

  /** As written no card can be generated: the schedule always throws. */
  lemma TikaCardAlwaysThrows(certificateNo: string, birthDate: string, now: int)
    ensures GenerateTikaCard(EcmaParseInt, certificateNo, birthDate, now) == Throw(RangeError)
  {
    VaccinationScheduleAlwaysThrows(birthDate, now);
  }

  /** What `setChildInfo` stores. */
  datatype ChildInfo = ChildInfo(birthDate: string, birthCertificate: string, tikaCard: TikaCard)

  const DueDateKey: string := "sneho_maternal_due_date"
  const BirthDateKey: string := "sneho_child_birth_date"
  const CertificateKey: string := "sneho_birth_certificate"

  /** A stored value that JavaScript treats as present: set and non-empty. */
  function Saved(store: map<string, string>, key: string): (s: string)
    ensures key in store ==> s == store[key]
    ensures key !in store ==> s == ""
  {
    if key in store then store[key] else ""
  }

  /** The exception a completion carries, if any. */
  function ErrorOf<T>(c: Completion<T>): (e: Option<JsError>)
    ensures e.Some? <==> c.Throw?
  {
    if c.Throw? then Some(c.error) else None
  }

  /** `setNotifications(upcoming)` runs only when the check completes. */
  function Refreshed(current: seq<Notice>, u: Completion<seq<Notice>>): seq<Notice>
  {
    if u.Normal? then u.value else current
  }

  /** The tracker's state: the date inputs, the notifications, the saved
      child record, and the key-value store it writes. */
  class Tracker {
    /** How age labels are read: `EcmaParseInt` as shipped. */
    const reader: NumeralReader
    var dueDate: string
    var birthDate: string
    var birthCertificate: string
    var notifications: seq<Notice>
    var childInfo: Option<ChildInfo>
    var storage: map<string, string>

    /** Mounting with `loadSavedData`: each saved non-empty value fills its input. */
    constructor (reader: NumeralReader, storage: map<string, string>)
      ensures this.reader == reader && this.storage == storage
      ensures dueDate == Saved(storage, DueDateKey) && birthDate == Saved(storage, BirthDateKey)
      ensures birthCertificate == Saved(storage, CertificateKey)
      ensures notifications == [] && childInfo == None
    {
      this.reader := reader;
      this.storage := storage;
      dueDate := Saved(storage, DueDateKey);
      birthDate := Saved(storage, BirthDateKey);
      birthCertificate := Saved(storage, CertificateKey);
      notifications := [];
      childInfo := None;
    }

    /** `checkUpcomingNotifications()` followed by `setNotifications`: an
        exception leaves the list as it was and is returned. */
    method RefreshNotifications(now: int) returns (err: Option<JsError>)
      modifies this`notifications
      ensures var u := UpcomingNotices(reader, dueDate, birthDate, now);
        err == ErrorOf(u) && notifications == Refreshed(old(notifications), u)
    {
      var r := CheckUpcomingNotifications(reader, dueDate, birthDate, now);
      if r.Normal? {
        notifications := r.value;
      }
      err := ErrorOf(r);
    }

    /** `handleDueDateSave`: with a due date entered, store it and refresh the
        notifications; otherwise do nothing. */
    method SaveDueDate(now: int) returns (err: Option<JsError>)
      modifies this`storage, this`notifications
      ensures old(dueDate) == "" ==> err == None && storage == old(storage) && notifications == old(notifications)
      ensures old(dueDate) != "" ==>
        var u := UpcomingNotices(reader, dueDate, birthDate, now);
        storage == old(storage)[DueDateKey := dueDate]
        && err == ErrorOf(u) && notifications == Refreshed(old(notifications), u)
    {
      err := None;
      if dueDate != "" {
        storage := storage[DueDateKey := dueDate];
        err := RefreshNotifications(now);
      }
    }

    /** `handleChildInfoSave`: with both fields entered, store them and
        issue the card; otherwise nothing changes. */
    method SaveChildInfo(now: int) returns (err: Option<JsError>)
      modifies this`storage, this`childInfo, this`notifications
      ensures birthDate == "" || birthCertificate == "" ==>
        err == None && storage == old(storage) && childInfo == old(childInfo) && notifications == old(notifications)
      ensures birthDate != "" && birthCertificate != "" ==>
        storage == old(storage)[BirthDateKey := birthDate][CertificateKey := birthCertificate]
      ensures birthDate != "" && birthCertificate != "" ==>
        var card := GenerateTikaCard(reader, birthCertificate, birthDate, now);
        (card.Throw? ==> err == ErrorOf(card) && childInfo == old(childInfo) && notifications == old(notifications))
      ensures birthDate != "" && birthCertificate != "" ==>
        var card := GenerateTikaCard(reader, birthCertificate, birthDate, now);
        var u := UpcomingNotices(reader, dueDate, birthDate, now);
        (card.Normal? ==>
           childInfo == Some(ChildInfo(birthDate, birthCertificate, card.value))
           && err == ErrorOf(u) && notifications == Refreshed(old(notifications), u))
    {
      err := None;
      if birthDate != "" && birthCertificate != "" {
        storage := storage[BirthDateKey := birthDate][CertificateKey := birthCertificate];
        err := IssueCard(now);
      }
    }

    /** The rest of `handleChildInfoSave` once the store is written:
        `setChildInfo` with a fresh card, then the notification check. When
        the card's schedule throws, after the store has been written, the
        exception is returned and the child record and notifications stay as
        they were. */
    method IssueCard(now: int) returns (err: Option<JsError>)
      modifies this`childInfo, this`notifications
      ensures var card := GenerateTikaCard(reader, birthCertificate, birthDate, now);
        (card.Throw? ==> err == ErrorOf(card) && childInfo == old(childInfo) && notifications == old(notifications))
      ensures var card := GenerateTikaCard(reader, birthCertificate, birthDate, now);
        var u := UpcomingNotices(reader, dueDate, birthDate, now);
        (card.Normal? ==>
           childInfo == Some(ChildInfo(birthDate, birthCertificate, card.value))
           && err == ErrorOf(u) && notifications == Refreshed(old(notifications), u))
    {
      var card := GenerateTikaCard(reader, birthCertificate, birthDate, now);
      if card.Throw? {
        return ErrorOf(card);
      }
      err := ShowCard(card.value, now);
    }

    /** `setChildInfo` with the card, then the notification check as in
        `RefreshNotifications`. */
    method ShowCard(card: TikaCard, now: int) returns (err: Option<JsError>)
      modifies this`childInfo, this`notifications
      ensures var u := UpcomingNotices(reader, dueDate, birthDate, now);
        childInfo == Some(ChildInfo(birthDate, birthCertificate, card))
        && err == ErrorOf(u) && notifications == Refreshed(old(notifications), u)
    {
      var u := CheckUpcomingNotifications(reader, dueDate, birthDate, now);
      childInfo := Some(ChildInfo(birthDate, birthCertificate, card));
      if u.Normal? {
        notifications := u.value;
      }
      err := ErrorOf(u);
    }
  }
}
