# Sneho rural health companion: a verified model of its client logic

Sneho (স্নেহ) is a Bengali-language web app for rural health care. It has
the following parts:

- a splash and login gate;
- a page router with a back history;
- a maternal and child tracker, which builds antenatal and vaccination
  schedules and raises reminders from them;
- a daily mood log with a streak and statistics;
- a board of health events;
- a friends page with event invitations;
- a keyword-driven voice assistant;
- a map of health facilities with cascading location filters;
- a directory of community health workers;
- seasonal health tips.

This project models the logic of those components in Dafny and proves
properties about it.

Every component becomes one module:

| module | file | component |
|---|---|---|
| `Js` | js.dfy | JavaScript number and array primitives: numbers that may be NaN, `Math.ceil`, `Math.max`, `filter`, `find`, `findIndex`, `map`, and a `map` whose callback may throw |
| `Text` | text.dfy | `includes`, `replace(/-/g, '')`, `toLowerCase`, fixed-width decimal numerals |
| `Numerals` | parseint.dfy | `parseInt` as section 19.2.5 of ECMA-262 defines it |
| `Calendar` | calendar.dfy | the proleptic Gregorian day arithmetic of section 21.4.1 of ECMA-262 |
| `JsDate` | jsdate.dfy | `Date` values, `new Date(string)` on date strings, `setDate`, `setMonth`, `toISOString().split('T')[0]` |
| `Schedules` | schedule.dfy | the schedules of the maternal and child tracker, `calculateWeeks`, the card code |
| `Tracker` | tracker.dfy | the tracker's reminders, saves and vaccination card (a class) |
| `Navigation` | navigation.dfy | App: gating, the view dispatch, the history (a class) |
| `Login` | login.dfy | Login: the credential lookup and session (a class) |
| `MoodLog` | mood.dfy | MoodTracker: history, streak, statistics (a class) |
| `EventBoard` | events.dfy | HealthEvents: registration, status, totals (a class) |
| `Friends` | friends.dfy | FriendsSocial: friends, available users, invitations (a class) |
| `Voice` | voice.dfy | VoiceNavigator: the reply rules and the conversation (a class) |
| `FacilityMap` | map.dfy | HealthMap: the facility filter, the options, the centre, the icons (a class) |
| `HealthWorkers` | workers.dfy | CHWDirectory: the skill filter |
| `SeasonalTips` | tips.dfy | HealthTips: the month-to-season split and the tips table |

The model represents browser state as follows:

- Component state becomes class fields.
- Event handlers become methods whose `ensures` state the whole new state.
- The current time (`new Date()`) is a parameter `now`, in milliseconds since the epoch, in UTC.
- `localStorage` becomes a field holding the value last written: an `Option`, or a `map` of keys for the tracker.
- `Math.random()` becomes an index parameter.
- A JavaScript exception becomes the `Throw` case of `Js.Completion`, or an `err` out-parameter of the handler.

## Model

| member | source | states |
|---|---|---|
| Js.Add | src/components/MaternalChildTracker.jsx:118 | the sum is NaN iff an operand is NaN, and otherwise the integer sum |
| Js.Sub | src/components/MaternalChildTracker.jsx:94 | the difference is NaN iff an operand is NaN, and otherwise the integer difference |
| Js.Times | src/components/MaternalChildTracker.jsx:118 | the product with a constant is NaN iff the operand is NaN, and otherwise the integer product |
| Js.CeilDiv | src/components/MaternalChildTracker.jsx:40 | `Math.ceil(a / b)`: the least `r` with `r * b >= a` |
| Js.CeilDivUnique | src/components/MaternalChildTracker.jsx:92 | any `q` with `q * b >= a > (q - 1) * b` is the ceiling quotient |
| Js.MaxZero | src/components/MaternalChildTracker.jsx:93 | `Math.max(0, x)` is NaN iff `x` is NaN, and otherwise the larger of 0 and `x` |
| Js.MapOrThrow | src/components/MaternalChildTracker.jsx:98-106 | a completed `map` has one result per element |
| Js.MapOrThrowSpec | src/components/MaternalChildTracker.jsx:98-106 | `map` throws the exception of its first throwing callback and otherwise returns each callback's value in order |
| Js.MapOrThrowAt | src/components/MaternalChildTracker.jsx:111-130 | element `i` of a completed `map` is the callback's value for element `i` |
| Js.MapOrThrowFails | src/components/MaternalChildTracker.jsx:111-130 | one throwing callback makes the whole `map` throw |
| Js.MapOrThrowCompletes | src/components/MaternalChildTracker.jsx:111-130 | when no callback throws, `map` completes with one value per element |
| Js.Filter | src/components/CHWDirectory.jsx:46 | `filter` keeps exactly the elements that pass: each result passes, and each passing element is kept |
| Js.FilterSubsequence | src/components/CHWDirectory.jsx:46 | `filter` keeps the survivors in their original order |
| Js.FilterAppend | src/components/HealthEvents.jsx:276 | filtering a concatenation concatenates the filtered parts |
| Js.FilterAll | src/components/HealthMap.jsx:198-203 | when everything passes, `filter` returns the input |
| Js.FilterNone | src/components/HealthMap.jsx:198-203 | when nothing passes, `filter` returns the empty list |
| Js.FilterNarrower | src/components/HealthMap.jsx:198-203 | filtering by a stricter test keeps a subsequence of what the looser test keeps |
| Js.FindIndex | src/components/Login.jsx:24 | no index iff no element passes; otherwise the first index whose element passes |
| Js.Find | src/components/Login.jsx:24 | `undefined` iff no element passes; otherwise the first element that passes |
| Js.PrefixSubsequence | src/components/MoodTracker.jsx:94 | `slice(0, n)` is an order-preserving subsequence |
| Js.SubsequenceRefl | src/components/CHWDirectory.jsx:44-45 | a list is a subsequence of itself |
| Js.SubsequencePositions | src/components/MoodTracker.jsx:92-94 | two elements of a subsequence appear in the same order in the full list |
| Js.SubsequenceMember | src/components/MoodTracker.jsx:92-94 | every element of a subsequence occurs in the full list |
| Js.Map | src/components/HealthEvents.jsx:48-56 | `map` keeps the length and applies the callback at each index |
| Text.ContainsIffOccurrence | src/components/VoiceNavigator.jsx:124 | `includes` holds iff the substring occurs at some index |
| Text.ContainsInfix | src/components/VoiceNavigator.jsx:124 | a string includes any string it has between two others |
| Text.RemoveChar | src/components/MaternalChildTracker.jsx:165 | `replace(/-/g, '')` leaves no dash, keeps exactly the other characters that occur, and is no longer than its input |
| Text.RemoveCharKeeps | src/components/MaternalChildTracker.jsx:165 | `replace(/-/g, '')` is a subsequence of its input (order kept) whose multiset is the input's with the dash count set to zero (multiplicity kept) |
| Text.RemoveCharAppend | src/components/MaternalChildTracker.jsx:165 | removing a character distributes over concatenation |
| Text.RemoveCharAbsent | src/components/MaternalChildTracker.jsx:165 | a string without the character is unchanged |
| Text.ToLowerAscii | src/components/VoiceNavigator.jsx:121 | `toLowerCase` keeps the length, maps each character, and leaves no ASCII capital |
| Text.ToLowerAsciiFixed | src/components/VoiceNavigator.jsx:121 | lower-casing is idempotent and leaves Bengali text unchanged |
| Text.DigitsValuePadded | src/components/MaternalChildTracker.jsx:103 | a zero-padded numeral reads back as its value |
| Text.PaddedDigitsValue | src/components/MaternalChildTracker.jsx:103 | padding a numeral's value to its width gives the numeral back |
| Numerals.TrimStart | src/components/MaternalChildTracker.jsx:117 | `parseInt` strips exactly the leading white space |
| Numerals.DigitRun | src/components/MaternalChildTracker.jsx:117 | `parseInt` reads the longest leading run of digits |
| Numerals.ParseIntNoLeadingDigit | src/components/MaternalChildTracker.jsx:117 | a label that starts with a non-digit (a Bengali digit) parses to NaN |
| Numerals.ParseIntLeadingDigit | src/components/MaternalChildTracker.jsx:120 | a label that starts with an ASCII digit parses to the value of its leading digits |
| Numerals.ParseIntDecimalPrefix | src/components/MaternalChildTracker.jsx:117 | ASCII digits followed by a non-digit parse to the digits' value |
| Numerals.DigitRunOfDigits | src/components/MaternalChildTracker.jsx:117 | the digit run of digits followed by a non-digit is those digits |
| Numerals.RunValueIsDigitsValue | src/components/MaternalChildTracker.jsx:117 | the radix-10 value of a run equals its decimal value |
| Calendar.YearFromDay | src/components/MaternalChildTracker.jsx:121 | the year of a day number is the one whose January 1 is at or before the day and whose successor's is after it |
| Calendar.CivilFromDay | src/components/MaternalChildTracker.jsx:103 | the calendar date of a day number is the in-range date that `MakeDay` maps to the day |
| Calendar.CivilFromMakeDay | src/components/MaternalChildTracker.jsx:103 | an in-range calendar date is read back unchanged from its day number |
| Calendar.MakeDayMonthsLater | src/components/MaternalChildTracker.jsx:121 | `n` months after a date lie between `28n` and `31n` days later |
| JsDate.TimeClip | src/components/MaternalChildTracker.jsx:97 | a time value is valid iff it lies within the range of ±8.64e15 ms |
| JsDate.SetDateAddDays | src/components/MaternalChildTracker.jsx:100 | `setDate(getDate() + k)` moves the instant by exactly `k` days, clipped to the range |
| Calendar.CivilFromMakeDayCarried | src/components/MaternalChildTracker.jsx:121 | a month number past December carries whole years: when the day exists in the month it lands in, `MakeDay` names exactly that calendar date |
| JsDate.MonthsLaterOf | src/components/MaternalChildTracker.jsx:121 | the day `MakeDay` gives for month `m + n` and the same day of the month is `n` calendar months on: `28n` to `31n` days later, and the same day of the carried month whenever that month has it |
| JsDate.SetMonthAt | src/components/MaternalChildTracker.jsx:121 | before clipping, `setMonth(getMonth() + n)` computes the instant `n` calendar months on at the same time of day, at most `31n` days later |
| JsDate.SetMonthBy | src/components/MaternalChildTracker.jsx:121 | a valid result of `setMonth(getMonth() + n)` is `n` calendar months on: same time of day, same day of the month when that month has it (rolled into the next month otherwise), `28n` to `31n` days later |
| JsDate.SetMonthByInRange | src/components/MaternalChildTracker.jsx:121 | `setMonth(getMonth() + n)` stays valid when `31n` days later is still in range |
| JsDate.ToIsoDate | src/components/MaternalChildTracker.jsx:103 | `toISOString().split('T')[0]` throws RangeError iff the date is invalid |
| JsDate.ParseIsoDate | src/components/MaternalChildTracker.jsx:39 | parsing the `YYYY-MM-DD` text of a date gives midnight of the same day |
| JsDate.IsoDateOfParse | src/components/MaternalChildTracker.jsx:114-115 | a calendar date string parses and prints back unchanged |
| JsDate.DaysUntil | src/components/MaternalChildTracker.jsx:40 | `Math.ceil((date - now) / msPerDay)` is NaN iff the date is invalid, and otherwise the ceiling of the day difference |
| Schedules.VisitDateShift | src/components/MaternalChildTracker.jsx:99-100 | a visit date is the due date moved back by `(40 - week) * 7` days |
| Schedules.AncRowOf | src/components/MaternalChildTracker.jsx:98-105 | a row throws RangeError iff its visit date is invalid, and otherwise copies the week and visit |
| Schedules.MaternalScheduleShape | src/components/MaternalChildTracker.jsx:72-77 | the antenatal schedule throws only RangeError, and does so iff the due date is invalid or 224 days before it is out of range; otherwise it has four rows in table order |
| Schedules.AncWeeks | src/components/MaternalChildTracker.jsx:72-77 | the visit offsets are 224, 140, 84 and 28 days |
| Schedules.MaternalScheduleDays | src/components/MaternalChildTracker.jsx:96-107 | row `i`'s date is the day `(40 - week_i) * 7` days before the due date |
| Schedules.MaternalScheduleOrdered | src/components/MaternalChildTracker.jsx:96-107 | the antenatal dates strictly increase and all fall before the due date |
| Schedules.LatinDigit | src/components/MaternalChildTracker.jsx:81-85 | a Bengali digit maps to the ASCII digit of the same value; other characters are kept |
| Schedules.VaxRowOf | src/components/MaternalChildTracker.jsx:111-129 | a row throws RangeError iff its date is invalid; otherwise its status is `due` iff `now` has reached the date |
| Schedules.VaccinationScheduleShape | src/components/MaternalChildTracker.jsx:79-86 | the vaccination schedule throws only RangeError, and otherwise has six rows in table order |
| Schedules.ScheduleRow | src/components/MaternalChildTracker.jsx:111-129 | each row's date is the day of its computed instant, and its status is `due` iff `now` is at or after that instant |
| Schedules.BirthRowDate | src/components/MaternalChildTracker.jsx:114-115 | the at-birth row is due on the birth date itself |
| Schedules.WeekLabelDate | src/components/MaternalChildTracker.jsx:116-118 | a week label read as `n` gives the birth date plus `7n` days |
| Schedules.MonthLabelDate | src/components/MaternalChildTracker.jsx:119-121 | a month label read as `n` gives the birth instant `n` calendar months on (same day of the month when it exists, rolled forward otherwise, same time of day), and a valid date whenever birth plus `31n` days is in range |
| Schedules.UnreadableLabel | src/components/MaternalChildTracker.jsx:116-122 | a week or month label that reads as NaN gives an invalid date |
| Schedules.ShippedLabelsUnreadable | src/components/MaternalChildTracker.jsx:79-85 | every shipped age label after the first starts with a Bengali digit and parses to NaN |
| Schedules.VaccinationScheduleAlwaysThrows | src/components/MaternalChildTracker.jsx:109-131 | as written, the vaccination schedule throws RangeError for every birth date |
| Schedules.ShippedLabelCounts | src/components/MaternalChildTracker.jsx:80-85 | read digit by digit, the labels count 6, 10 and 14 weeks, then 9 and 15 months |
| Schedules.CorrectedVaccinationSchedule | src/components/MaternalChildTracker.jsx:109-131 | with Bengali digits read, the schedule completes for any valid birth date at least 465 days before the end of the time range (so the 15-month row stays valid): the birth date, then +42, +70 and +98 days, then 28 to 31 days per month for the 9- and 15-month rows |
| Schedules.CorrectedMonthRow | src/components/MaternalChildTracker.jsx:119-131 | with Bengali digits read, the 9- and 15-month rows are due exactly 9 and 15 calendar months after the birth date (same day of the month, rolled forward when the month is shorter) |
| Schedules.VaxDateCorrected | src/components/MaternalChildTracker.jsx:113-122 | with Bengali digits read, each row's date is valid: the birth day, the birth day plus 7 days per week of the label, or the label's count of calendar months on |
| Schedules.WeekRowCorrected | src/components/MaternalChildTracker.jsx:115-118 | with Bengali digits read, rows 1 to 3 are due 42, 70 and 98 days after the birth day |
| Schedules.MonthRowCorrected | src/components/MaternalChildTracker.jsx:119-121 | with Bengali digits read, rows 4 and 5 are due 9 and 15 calendar months after the birth instant |
| Schedules.CalculateWeeks | src/components/MaternalChildTracker.jsx:88-94 | `calculateWeeks` is NaN iff the date is invalid; otherwise it is at least 0, exceeds 40 iff the due date is a full week or more past, is 0 iff more than 39 weeks remain, and otherwise brackets the remaining time |
| Schedules.CardCodeParts | src/components/MaternalChildTracker.jsx:165 | the card code is `TIKA-`, the certificate, a dash, then the birth date with every dash dropped: a subsequence of the date holding each other character as often as the date does |
| Schedules.CardCodeOfDate | src/components/MaternalChildTracker.jsx:165 | for a `YYYY-MM-DD` date the code ends in `YYYYMMDD` |
| Tracker.AncCheckpoints | src/components/MaternalChildTracker.jsx:38-39 | each antenatal row yields a maternal checkpoint with its visit and date |
| Tracker.VaxCheckpoints | src/components/MaternalChildTracker.jsx:55-56 | each vaccination row yields a vaccination checkpoint with its vaccine and date |
| Tracker.InWindowIff | src/components/MaternalChildTracker.jsx:40-42 | an item is in the window iff its date is valid and falls after one day before `now` and no later than three days after it |
| Tracker.DaysText | src/components/MaternalChildTracker.jsx:45 | the text is `আজ` iff the day count is 0 |
| Tracker.NoticeOf | src/components/MaternalChildTracker.jsx:43-47 | a notice keeps its item's kind and date |
| Tracker.NoticesMembership | src/components/MaternalChildTracker.jsx:38-49 | a notice is produced iff some item in the window carries it |
| Tracker.NoticesAppend | src/components/MaternalChildTracker.jsx:31-70 | notices follow the order of their items across concatenation |
| Tracker.NoticesKinds | src/components/MaternalChildTracker.jsx:31-70 | notices of same-kind items are of that kind, and are no more numerous than the items |
| Tracker.MaternalNotices | src/components/MaternalChildTracker.jsx:36-50 | the maternal pass yields only maternal notices |
| Tracker.VaccinationNotices | src/components/MaternalChildTracker.jsx:53-67 | the vaccination pass yields only vaccination notices |
| Tracker.UpcomingOrder | src/components/MaternalChildTracker.jsx:31-70 | maternal notices precede vaccination notices |
| Tracker.UpcomingThrowsWithBirthDate | src/components/MaternalChildTracker.jsx:53-54 | as written, a set birth date makes the check throw |
| Tracker.CheckUpcomingNotifications | src/components/MaternalChildTracker.jsx:31-70 | the method computes exactly the specified notice list, or the exception |
| Tracker.CheckMaternal | src/components/MaternalChildTracker.jsx:36-50 | the loop over the antenatal schedule computes the maternal notices |
| Tracker.CheckVaccination | src/components/MaternalChildTracker.jsx:53-67 | the loop over the vaccination schedule computes the vaccination notices |
| Tracker.PushInWindow | src/components/MaternalChildTracker.jsx:38-49 | the `forEach` with `push` appends the notices of the items in the window |
| Tracker.AncCompletedIff | src/components/MaternalChildTracker.jsx:263 | a visit shows as completed iff `now` has reached midnight of its day |
| Tracker.GenerateTikaCard | src/components/MaternalChildTracker.jsx:159-167 | the card is produced iff the schedule completes; otherwise RangeError |
| Tracker.TikaCardAlwaysThrows | src/components/MaternalChildTracker.jsx:159-167 | as written, generating a card always throws |
| Tracker.Saved | src/components/MaternalChildTracker.jsx:17-29 | the stored value when the key is present, otherwise empty |
| Tracker.ErrorOf | src/components/MaternalChildTracker.jsx:31-70 | an error is reported iff the computation threw |
| Tracker.Tracker.constructor | src/components/MaternalChildTracker.jsx:4-29 | each stored value fills its input, and an absent key leaves it empty; no notices and no child record |
| Tracker.Tracker.RefreshNotifications | src/components/MaternalChildTracker.jsx:31-70 | the notices become the computed list, or stay when it throws |
| Tracker.Tracker.SaveDueDate | src/components/MaternalChildTracker.jsx:133-139 | with a due date, it is stored and the notices refreshed; without one nothing changes |
| Tracker.Tracker.SaveChildInfo | src/components/MaternalChildTracker.jsx:141-157 | with both fields, both are stored and the card issued; otherwise nothing changes |
| Tracker.Tracker.IssueCard | src/components/MaternalChildTracker.jsx:146-154 | a card whose schedule throws leaves the child record and notices as they were |
| Tracker.Tracker.ShowCard | src/components/MaternalChildTracker.jsx:146-154 | the child record holds the card, and the notices are refreshed |
| Navigation.PageOf | src/App.jsx:96-111 | a known view name renders its page; any other renders Home |
| Navigation.PageOfViewName | src/App.jsx:96-111 | each page's view name dispatches back to that page |
| Navigation.ScreenOf | src/App.jsx:113-121 | the splash shows iff loading; the main app shows iff not loading, not showing login, and a user is set |
| Navigation.Back | src/App.jsx:75-83 | with more than one entry the last is dropped; otherwise the history is unchanged; it is never emptied |
| Navigation.BackUndoesNavigate | src/App.jsx:68-83 | going back right after navigating restores the history and the current view |
| Navigation.App.constructor | src/App.jsx:18-33 | the app starts loading on `home` with history `['home']` and the saved user |
| Navigation.App.HandleLoadingComplete | src/App.jsx:48-51 | loading ends and the login screen shows |
| Navigation.App.HandleLogin | src/App.jsx:53-56 | the user is set and login hidden, so the main app shows once loading is over |
| Navigation.App.HandleLogout | src/App.jsx:58-65 | the user and saved user are cleared, login shows, the view and history reset to `home`, and the menu closes |
| Navigation.App.NavigateTo | src/App.jsx:68-72 | the view is appended to the history and shown, and the menu closes; the history invariant holds |
| Navigation.App.GoBack | src/App.jsx:75-83 | the history becomes `Back` of the old one and the last entry shows |
| Navigation.App.GoHome | src/App.jsx:86-90 | the view and history reset to `home` and the menu closes |
| Navigation.App.ToggleMobileMenu | src/App.jsx:92-94 | the menu flag flips |
| Login.Authenticate | src/components/Login.jsx:10-24 | no user iff no demo record matches both id and password; otherwise the first match |
| Login.AuthenticateDemoUser | src/components/Login.jsx:10-15 | every demo record's own credentials log in as that record |
| Login.SessionOf | src/components/Login.jsx:28-33 | the session holds the user's id and name, the login time, and online status |
| Login.LoginForm.constructor | src/components/Login.jsx:4-7 | empty fields, no error, not loading |
| Login.LoginForm.HandleLogin | src/components/Login.jsx:17-40 | on a match the session is stored and the error is empty; otherwise nothing is stored and the error is set; loading ends either way |
| Login.LoginForm.HandleDemoLogin | src/components/Login.jsx:42-59 | the fields take the demo credentials; a match stores the session; a mismatch changes nothing |
| MoodLog.EntryOf | src/components/MoodTracker.jsx:78-86 | the entry records the mood's label, value and the current instant |
| MoodLog.MoodValues | src/components/MoodTracker.jsx:9-15 | mood values lie in 1..5 and are distinct |
| MoodLog.OtherDays | src/components/MoodTracker.jsx:193-195 | the "change" filter keeps exactly the entries not dated today |
| MoodLog.OtherDaysOrder | src/components/MoodTracker.jsx:193-195 | the kept entries stay in order |
| MoodLog.Record | src/components/MoodTracker.jsx:92-94 | the new entry comes first, followed by the longest prefix of the other days' entries (in their order) that keeps the log at 30 entries; the length is `min(1 + |others|, 30)` |
| MoodLog.RecordInvariants | src/components/MoodTracker.jsx:92-94 | recording keeps one entry per day, and keeps newest-first order when the entry is the newest |
| MoodLog.RecordOnePerDay | src/components/MoodTracker.jsx:92-94 | logging an entry for its own day keeps one entry per day |
| MoodLog.RecordNewestFirst | src/components/MoodTracker.jsx:92-94 | logging an entry no older than the history keeps it newest first |
| MoodLog.InsertNewestFirst | src/components/MoodTracker.jsx:136-138 | insertion adds exactly the entry to the multiset |
| MoodLog.InsertKeepsNewestFirst | src/components/MoodTracker.jsx:136-138 | insertion keeps newest-first order |
| MoodLog.SortNewestFirst | src/components/MoodTracker.jsx:136-138 | the sort is a permutation and orders newest first |
| MoodLog.Streak | src/components/MoodTracker.jsx:143-153 | the streak counts the leading entries dated today, yesterday and so on, and stops at the first gap |
| MoodLog.CalculateStreak | src/components/MoodTracker.jsx:132-156 | the loop computes `Streak` of the sorted history and never exceeds its length |
| MoodLog.StreakNeedsToday | src/components/MoodTracker.jsx:143-153 | without an entry for today the streak is 0 |
| MoodLog.StreakAfterRecord | src/components/MoodTracker.jsx:75-98 | right after logging a mood the streak is at least 1 |
| MoodLog.SortedHeadIsLatest | src/components/MoodTracker.jsx:136-138 | after sorting, the first entry carries the latest timestamp of the history |
| MoodLog.TallyPositive | src/components/MoodTracker.jsx:116-118 | a label's count is positive iff some entry has it |
| MoodLog.Labels | src/components/MoodTracker.jsx:116-120 | the keys are exactly the labels with positive counts, without repeats |
| MoodLog.CountMoods | src/components/MoodTracker.jsx:114-118 | the loop fills the keys in first-seen order and each count equals the tally |
| MoodLog.MostFrequent | src/components/MoodTracker.jsx:120-122 | the result is a key with the maximal count, and no later key shares that count |
| MoodLog.MostFrequentUnique | src/components/MoodTracker.jsx:120-122 | the most frequent label is unique |
| MoodLog.LastSeven | src/components/MoodTracker.jsx:112 | the first seven entries, or all of them when there are fewer |
| MoodLog.GetMoodStats | src/components/MoodTracker.jsx:109-130 | null iff the history is empty; otherwise the entry count, the streak, and the most frequent label of the first seven entries |
| MoodLog.TodayEntry | src/components/MoodTracker.jsx:61-73 | none iff no entry is dated today; otherwise the first entry dated today (no earlier entry is) |
| MoodLog.MoodTracker.constructor | src/components/MoodTracker.jsx:17-73 | the saved history is loaded, and today's mood comes from it |
| MoodLog.MoodTracker.HandleMoodSelect | src/components/MoodTracker.jsx:75-98 | the history becomes `Record` of the old one and is saved, and today's mood is the new entry |
| MoodLog.MoodTracker.ChangeTodayMood | src/components/MoodTracker.jsx:190-198 | today's entries are removed and the rest saved, and the selection is cleared |
| MoodLog.MoodTracker.ClearMoodHistory | src/components/MoodTracker.jsx:100-107 | when confirmed, everything is cleared and the store removed; otherwise nothing changes |
| EventBoard.RegisterIn | src/components/HealthEvents.jsx:46-57 | the matching events become registered with one more participant; all else is unchanged |
| EventBoard.CancelIn | src/components/HealthEvents.jsx:66-78 | the matching events become unregistered with one participant fewer; all else is unchanged |
| EventBoard.CancelUndoesRegister | src/components/HealthEvents.jsx:46-78 | register then cancel restores the list iff no matching event was registered |
| EventBoard.RegisterUndoesCancel | src/components/HealthEvents.jsx:46-78 | cancel then register restores the list iff every matching event was registered |
| EventBoard.StatusOf | src/components/HealthEvents.jsx:84-92 | full iff at capacity; registered iff below capacity and registered; available otherwise |
| EventBoard.InitialEventsSound | src/components/HealthEvents.jsx:4-41 | the initial events are within capacity, with a participant when registered |
| EventBoard.RegisterKeepsSound | src/components/HealthEvents.jsx:187-218 | a register offered by the UI keeps every event within capacity |
| EventBoard.CancelKeepsSound | src/components/HealthEvents.jsx:187-218 | a cancel offered by the UI keeps every event sound |
| EventBoard.RegisteredCount | src/components/HealthEvents.jsx:276 | the registered count never exceeds the number of events, and is zero iff no event is registered for |
| EventBoard.RegisteredAfterRegister | src/components/HealthEvents.jsx:47-57 | registering raises the registered count by the number of not-yet-registered events with the id |
| EventBoard.RegisteredAfterCancel | src/components/HealthEvents.jsx:67-77 | cancelling lowers the registered count by the number of registered events with the id |
| EventBoard.CountId | src/components/HealthEvents.jsx:48-49 | the number of events with an id never exceeds the number of events |
| EventBoard.TotalAfterRegister | src/components/HealthEvents.jsx:46-57 | registering raises the total by the number of matching events |
| EventBoard.TotalAfterCancel | src/components/HealthEvents.jsx:66-78 | cancelling lowers the total by the number of matching events |
| EventBoard.InitialIdsDistinct | src/components/HealthEvents.jsx:4-41 | each initial id belongs to exactly one event, so the total moves by exactly one |
| EventBoard.Toggle | src/components/HealthEvents.jsx:80-82 | the details open for the id, or close iff they were the open ones |
| EventBoard.ToggleTwice | src/components/HealthEvents.jsx:80-82 | toggling twice restores the state iff nothing or that event was open |
| EventBoard.Board.constructor | src/components/HealthEvents.jsx:4-44 | the initial events, with no confirmation and no details open |
| EventBoard.Board.HandleRegister | src/components/HealthEvents.jsx:46-58 | the events become `RegisterIn`, the confirmation shows, and the total rises |
| EventBoard.Board.HideConfirmation | src/components/HealthEvents.jsx:61-63 | the confirmation is hidden |
| EventBoard.Board.HandleCancelRegistration | src/components/HealthEvents.jsx:66-78 | the events become `CancelIn`, and the total falls |
| EventBoard.Board.ToggleDetails | src/components/HealthEvents.jsx:80-82 | the details become `Toggle` of the old state |
| Friends.AvailableUsers | src/components/FriendsSocial.jsx:41-49 | exactly the demo users that are neither the current user nor a friend |
| Friends.AvailableUsersOrder | src/components/FriendsSocial.jsx:41-49 | the available users keep table order |
| Friends.WithoutId | src/components/FriendsSocial.jsx:58-74 | no person with the id remains, and every other person is kept |
| Friends.RemoveUndoesAdd | src/components/FriendsSocial.jsx:58-74 | removing a friend just added restores the friend list |
| Friends.RespondIn | src/components/FriendsSocial.jsx:105-107 | the same length; matching invitations take the response and the others are unchanged |
| Friends.RespondIdempotent | src/components/FriendsSocial.jsx:105-107 | responding twice the same way equals responding once |
| Friends.PendingInvitations | src/components/FriendsSocial.jsx:119-124 | exactly the invitations to the current user that are pending; none when nobody is logged in |
| Friends.AnsweredNotPending | src/components/FriendsSocial.jsx:104-124 | an answered invitation no longer shows as pending |
| Friends.AcceptedCount | src/components/FriendsSocial.jsx:320 | the accepted count never exceeds the number of invitations |
| Friends.AcceptRaisesCount | src/components/FriendsSocial.jsx:104-110 | accepting pending invitations raises the count by the number with the id |
| Friends.OnlineCount | src/components/FriendsSocial.jsx:314 | the online count never exceeds the number of friends, and is zero iff no friend is online |
| Friends.InvitationOf | src/components/FriendsSocial.jsx:83-94 | a new invitation is pending, for the event, from the sender, to the friend |
| Friends.FriendsPage.constructor | src/components/FriendsSocial.jsx:24-56 | the saved friends (or the first two demo users) and invitations are loaded, and the available users are derived |
| Friends.FriendsPage.AddFriend | src/components/FriendsSocial.jsx:58-66 | the user is appended to the friends, removed from the available users, and the friends are saved |
| Friends.FriendsPage.RemoveFriend | src/components/FriendsSocial.jsx:68-74 | the friends with the id are removed, the found friend joins the available users, and the friends are saved |
| Friends.FriendsPage.SendEventInvitation | src/components/FriendsSocial.jsx:76-102 | nothing happens when the event or friend is unknown; it throws without a logged-in user; otherwise one pending invitation is appended and saved |
| Friends.FriendsPage.RespondToInvitation | src/components/FriendsSocial.jsx:104-117 | the responses are saved; an acceptance navigates to events, or throws when no invitation has the id |
| Voice.AnyContains | src/components/VoiceNavigator.jsx:124 | a rule's `||` chain holds iff some keyword occurs in the input |
| Voice.Classify | src/components/VoiceNavigator.jsx:120-153 | the chosen rule fires, and no earlier rule in the chain does |
| Voice.ClassifyUnknown | src/components/VoiceNavigator.jsx:152 | the default pool is used iff no rule fires |
| Voice.ClassifyCold | src/components/VoiceNavigator.jsx:124-132 | the fever/cold reply iff no greeting or pain keyword occurs and a fever/cold keyword does |
| Voice.KeywordsLowercase | src/components/VoiceNavigator.jsx:121-149 | no keyword contains an ASCII capital |
| Voice.GreetingPainColdLowercase | src/components/VoiceNavigator.jsx:124-132 | the greeting, pain and fever/cold keywords contain no ASCII capital |
| Voice.MindPlaceEmergencyLowercase | src/components/VoiceNavigator.jsx:133-141 | the mental-health, place and emergency keywords contain no ASCII capital |
| Voice.MedicineThanksWhereLowercase | src/components/VoiceNavigator.jsx:142-150 | the medicine, thanks and where keywords contain no ASCII capital |
| Voice.KeywordAnywhere | src/components/VoiceNavigator.jsx:120-153 | a keyword anywhere in a sentence selects its rule or an earlier one, never the default |
| Voice.GetRandomResponse | src/components/VoiceNavigator.jsx:155-157 | the reply is an element of the pool |
| Voice.Replies | src/components/VoiceNavigator.jsx:12-153 | each rule answers from a pool of three or with one fixed reply |
| Voice.PoolsShape | src/components/VoiceNavigator.jsx:12-53 | every pool holds three non-empty replies |
| Voice.Respond | src/components/VoiceNavigator.jsx:120-153 | the reply comes from the chosen rule's replies: fixed for fever/cold, from the default pool when no rule fires |
| Voice.QuickAnswer | src/components/VoiceNavigator.jsx:252-267 | the default prompt iff the type is none of the four known types |
| Voice.Assistant.constructor | src/components/VoiceNavigator.jsx:4-10 | an empty conversation; not listening, thinking or speaking |
| Voice.Assistant.AddToConversation | src/components/VoiceNavigator.jsx:97-106 | exactly one message is appended, and it is spoken iff asked and from the assistant |
| Voice.Assistant.WelcomeOnMount | src/components/VoiceNavigator.jsx:90-93 | the welcome message is appended |
| Voice.Assistant.OnRecognitionStart | src/components/VoiceNavigator.jsx:66-69 | listening starts and the note is logged |
| Voice.Assistant.OnRecognitionError | src/components/VoiceNavigator.jsx:76-81 | listening stops and the not-heard reply is logged |
| Voice.Assistant.StopListening | src/components/VoiceNavigator.jsx:226-231 | listening stops |
| Voice.Assistant.ProcessUserSpeech | src/components/VoiceNavigator.jsx:108-118 | the user's words, then the reply to them, are appended, and thinking ends |
| Voice.Assistant.HandleQuickQuestion | src/components/VoiceNavigator.jsx:246-271 | the question, then its fixed answer, are appended, and thinking ends |
| Voice.Assistant.ClearConversation | src/components/VoiceNavigator.jsx:233-243 | the log is exactly the restart welcome, and speech stops when synthesis exists |
| FacilityMap.FilterFacilities | src/components/HealthMap.jsx:198-203 | a facility is shown iff every non-empty selector equals its field |
| FacilityMap.AllSelectorsEmpty | src/components/HealthMap.jsx:198-203 | with every selector empty, all facilities are shown |
| FacilityMap.FilterFacilitiesOrder | src/components/HealthMap.jsx:198-203 | the shown facilities keep table order |
| FacilityMap.SelectingNarrows | src/components/HealthMap.jsx:198-203 | each further selector shows a subsequence of what the coarser selection shows |
| FacilityMap.FilterSixRows | src/components/HealthMap.jsx:198-203 | over a six-facility table, the list is each selected facility in table order |
| FacilityMap.InitialSelection | src/components/HealthMap.jsx:54-166 | on opening, the three Dhaka-district facilities are listed |
| FacilityMap.DhakaRows | src/components/HealthMap.jsx:73-166 | the first, second and fourth facilities lie in Dhaka district and the others do not |
| FacilityMap.AsWrittenHidesFifthFacility | src/components/HealthMap.jsx:140 | as written, selecting Tangail Sadar hides the facility located there |
| FacilityMap.CorrectedShowsFifthFacility | src/components/HealthMap.jsx:140 | with the corrected upazilla, the same selection lists it |
| FacilityMap.Lookup | src/components/HealthMap.jsx:206-207 | none iff the key is absent; otherwise the value stored under it |
| FacilityMap.Keys | src/components/HealthMap.jsx:205-206 | the keys in order |
| FacilityMap.DistrictOptions | src/components/HealthMap.jsx:206 | no options without a division or for an unknown one; otherwise the division's districts |
| FacilityMap.UpazillaOptions | src/components/HealthMap.jsx:207 | no options without a district or when the division or district is missing from the data; otherwise exactly the upazilla list the data gives that district of that division |
| FacilityMap.IconForType | src/components/HealthMap.jsx:216-228 | the clinic icon iff `clinic`, the pharmacy icon iff `pharmacy`, and the hospital icon for everything else |
| FacilityMap.TableIcons | src/components/HealthMap.jsx:73-228 | all facilities get hospital markers; the landmarks get hospital, clinic, pharmacy and clinic markers |
| FacilityMap.CentreFor | src/components/HealthMap.jsx:210-214 | a new centre iff the division is non-empty and in the coordinate table |
| FacilityMap.MapView.constructor | src/components/HealthMap.jsx:53-58 | Dhaka division and district, no upazilla, centred on Dhaka, map shown, listing the first, second and fourth facilities |
| FacilityMap.MapView.Shown | src/components/HealthMap.jsx:198-203 | the listed facilities are exactly those of the component's own table that the current selection selects, in table order |
| FacilityMap.MapView.OnDivisionChange | src/components/HealthMap.jsx:257-261 | the division is set, district and upazilla cleared, and the centre moves only for a division in the table |
| FacilityMap.MapView.OnDistrictChange | src/components/HealthMap.jsx:275-278 | the district is set and the upazilla cleared |
| FacilityMap.MapView.OnUpazillaChange | src/components/HealthMap.jsx:293 | the upazilla is set |
| FacilityMap.MapView.ToggleMap | src/components/HealthMap.jsx:244 | the map/list flag flips |
| HealthWorkers.FilterBySkill | src/components/CHWDirectory.jsx:44-46 | `all` returns the whole list; any other skill returns exactly the workers listing it |
| HealthWorkers.FilterBySkillOrder | src/components/CHWDirectory.jsx:44-46 | the result keeps list order |
| HealthWorkers.MentalHealthWorkers | src/components/CHWDirectory.jsx:6-46 | mental health is offered by the first and third workers |
| SeasonalTips.SeasonOfTable | src/components/HealthTips.jsx:13-21 | months 5–8 are the monsoon; 11, 0 and 1 the winter; the rest the summer |
| SeasonalTips.LoadSeasonalTips | src/components/HealthTips.jsx:28-86 | the table entry for a known key, and no tips otherwise |
| SeasonalTips.UnknownKeyHasNoTips | src/components/HealthTips.jsx:85 | a key other than the three seasons yields no tips |
| SeasonalTips.SeasonTipsShape | src/components/HealthTips.jsx:29-84 | each season has two categories of three tips |
| SeasonalTips.SeasonalView | src/components/HealthTips.jsx:7-26 | the season's Bengali name and exactly the tips `loadSeasonalTips` gives that season's key (two categories) |

## Left out

- Rendering, CSS, `alert`/`window.confirm` dialogs and the `bn-BD` locale formatting (`toLocaleDateString`, `toLocaleTimeString`, `displayDate`) are presentation only. `confirm` becomes a boolean parameter.
- `localStorage`, Leaflet, and Web Speech recognition and synthesis are browser I/O. The model keeps only the value written to storage and the speaking flag. Whether a message is spoken is returned by `AddToConversation`, not performed.
- Timers are collapsed: `setTimeout` delays run their callback at once. Examples are the login delay, the voice delays and the splash screen. The register confirmation's timeout is a separate method, `HideConfirmation`.
- Only UTC is modelled. `setDate`/`setMonth` work in local time in the browser. `toDateString` is modelled as the UTC day number.
- The mood average with `toFixed`, the participant percentage bar and `Math.random` involve floating point. The random index is a parameter.
- Online/offline listeners and `navigator.onLine` are left out.
- The tracker's mount effect that reads stale state is modelled as the source has it: its first notification check sees empty dates.
- Friends.FriendsPage.constructor: the mount effect `loadAvailableUsers` reads the friend list before the saved friends are loaded, so in the source it sees `[]`; the model derives the available users from the loaded friends instead.
- Invitation ids and `sentAt` are parameters, because `Date.now()` and `toISOString()` supply them.
- The `onNavigate` call in the event details view refers to an undefined name.
- `simulateNotification` only shows an alert.
- `bangladeshData` (`src/lib/bangladeshData`) is not part of this model. The district and upazilla options therefore take the division data as a parameter, as ordered key lists.
- `toLowerCase` is modelled for ASCII letters only. Bengali script has no case.
- Friends.FriendsPage.RemoveFriend requires that a friend with the id exists. Otherwise the source appends `undefined` to the available users. Its only call site passes the id of a listed friend.
- MoodLog.SortNewestFirst is stable, like `Array.prototype.sort`, but stability is not proved.
- The sources also contain JSON parsing of stored values and `try`/`catch` around storage. Stored values are assumed to be well-formed.
- SeasonalTips.UnknownKeyHasNoTips: the seasonal tip table is modelled as a map without JavaScript prototype lookup. In the source, a key such as `constructor` or `toString` would find an inherited member of the object instead of `[]`; the component only ever passes the three season keys.
- JsDate.ParseDate: only the date-only ISO forms (`YYYY-MM-DD` and the expanded-year form) are parsed; any other string becomes an Invalid Date, whereas `new Date(s)` falls back to a parse the implementation defines. The component only passes values from date inputs and storage, which have the date-only form.
- Navigation.PageOf returns a page tag; the pages themselves are other components.

## Findings

| source | as written | input that shows it | evidently intended | confidence | as-written member | corrected member |
|---|---|---|---|---|---|---|
| src/components/MaternalChildTracker.jsx:79-122 | the age labels use Bengali digits (`৬ সপ্তাহ`), which `parseInt` reads as NaN; `setDate`/`setMonth` with NaN makes the date invalid, and `toISOString` throws a RangeError, so every vaccination schedule, every card, and every notification check with a birth date throws | any birth date, e.g. `2024-01-15` | the labels read as 6, 10 and 14 weeks and 9 and 15 months | high (not executed) | Schedules.VaccinationScheduleAlwaysThrows | Schedules.CorrectedVaccinationSchedule |
| src/components/HealthMap.jsx:140 | the fifth facility's upazilla `টাঙ্গাইল সদर` ends in the Devanagari letter RA (U+0930), not the Bengali RA (U+09B0), so it never equals the Bengali name `টাঙ্গাইল সদর` | division `ঢাকা`, district `টাঙ্গাইল`, upazilla `টাঙ্গাইল সদর` | the facility is listed under Tangail Sadar | medium (not executed) | FacilityMap.AsWrittenHidesFifthFacility | FacilityMap.CorrectedShowsFifthFacility |

Where the behaviour differs from the component's documented intent, the model follows the code:

- `calculateWeeks` exceeds 40 once the due date is a full week or more in the past.
- Registering then cancelling, or toggling the details twice, restores the state only under the conditions stated above.
