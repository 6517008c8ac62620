/** The mood log of `MoodTracker.jsx`: a newest-first history holding at most
    one entry per day and at most 30 entries, today's entry, the streak of
    consecutive days logged up to today, and a summary of the last seven
    entries. Instants are milliseconds and days are UTC day numbers. */
module MoodLog {
  import opened Js
  import JsDate

  /** A mood the user can pick (`name` is the component's `label`). */
  datatype Mood = Mood(emoji: string, name: string, description: string, value: int)

  /** The moods offered, best first. */
  const Moods: seq<Mood> := [
    Mood("😊", "খুব ভালো", "মন খুব হালকা ও খুশি", 5),
    Mood("🙂", "ভালো", "স্বাভাবিক ভালো আছি", 4),
    Mood("😐", "মোটামুটি", "ঠিক আছে, কিছু না", 3),
    Mood("😔", "খারাপ", "মন খারাপ, চিন্তিত", 2),
    Mood("😢", "অনেক খারাপ", "বেশি চাপ বা দুঃখ", 1)
  ]

  /** A logged mood. The display date and time strings are left out; the
      ISO timestamp is kept as the instant it denotes. */
  datatype Entry = Entry(mood: string, emoji: string, value: int, description: string, timestamp: int)

  /** The most entries the history keeps. */
  const MaxEntries: nat := 30

  /** The UTC day an entry was logged on (what `toDateString` compares). */
  function DayOf(e: Entry): int
  {
    JsDate.Day(e.timestamp)
  }

  /** The entry `handleMoodSelect` logs for a mood at instant `now`. */
  function EntryOf(m: Mood, now: int): (e: Entry)
    ensures e.mood == m.name && e.value == m.value && e.timestamp == now
  {
    Entry(m.name, m.emoji, m.value, m.description, now)
  }

  /** Every mood is valued 1 to 5, the values are distinct, and so is every
      entry logged for one of them. */
  lemma MoodValues(i: int, now: int)
    requires 0 <= i < |Moods|
    ensures 1 <= Moods[i].value <= 5 && 1 <= EntryOf(Moods[i], now).value <= 5
    ensures forall j :: 0 <= j < |Moods| && j != i ==> Moods[j].value != Moods[i].value
  {
  }

  /** The entries not logged on the given day, in their order. */
  function OtherDays(history: seq<Entry>, today: int): (r: seq<Entry>)
    ensures forall i :: 0 <= i < |r| ==> r[i] in history && DayOf(r[i]) != today
    ensures forall i :: 0 <= i < |history| && DayOf(history[i]) != today ==> history[i] in r
  {
    Filter((e: Entry) => DayOf(e) != today, history)
  }

  /** `OtherDays` keeps the order of what it keeps. */
  lemma OtherDaysOrder(history: seq<Entry>, today: int)
    ensures Subsequence(OtherDays(history, today), history)
  {
    FilterSubsequence((e: Entry) => DayOf(e) != today, history);
  }

  /** The history after logging `e` on day `today`: `e` first, then the
      entries of other days in their order, as many of them as fit in 30
      entries. */
  function Record(history: seq<Entry>, e: Entry, today: int): (r: seq<Entry>)
    ensures 0 < |r| <= MaxEntries && r[0] == e
    ensures forall i :: 1 <= i < |r| ==> r[i] in history && DayOf(r[i]) != today
    ensures Subsequence(r[1..], OtherDays(history, today))
    ensures |r| == if 1 + |OtherDays(history, today)| <= MaxEntries then 1 + |OtherDays(history, today)| else MaxEntries
    ensures r[1..] == OtherDays(history, today)[..|r| - 1]
  {
    var all := [e] + OtherDays(history, today);
    var r := if |all| <= MaxEntries then all else all[..MaxEntries];
    assert r[1..] == OtherDays(history, today)[..|r| - 1];
    PrefixSubsequence(OtherDays(history, today), |r| - 1);
    r
  }

  /** At most one entry per day. */
  predicate OnePerDay(history: seq<Entry>)
  {
    forall i, j :: 0 <= i < j < |history| ==> DayOf(history[i]) != DayOf(history[j])
  }

  /** Newest first: timestamps never increase along the history. */
  predicate NewestFirst(history: seq<Entry>)
  {
    forall i, j :: 0 <= i < j < |history| ==> history[i].timestamp >= history[j].timestamp
  }

  /** Logging today's entry keeps the history at one entry per day, and keeps
      it newest first when no entry lies after the new one. */
  lemma RecordInvariants(history: seq<Entry>, e: Entry)
    requires OnePerDay(history)
    ensures OnePerDay(Record(history, e, DayOf(e)))
    ensures NewestFirst(history) && (forall i :: 0 <= i < |history| ==> history[i].timestamp <= e.timestamp) ==>
      NewestFirst(Record(history, e, DayOf(e)))
  {
    RecordOnePerDay(history, e);
    if NewestFirst(history) && (forall i :: 0 <= i < |history| ==> history[i].timestamp <= e.timestamp) {
      RecordNewestFirst(history, e);
    }
  }

  /** The one-entry-per-day half of `RecordInvariants`. */
  lemma RecordOnePerDay(history: seq<Entry>, e: Entry)
    requires OnePerDay(history)
    ensures OnePerDay(Record(history, e, DayOf(e)))
  {
    var r := Record(history, e, DayOf(e));
    OtherDaysOrder(history, DayOf(e));
    forall i, j | 0 <= i < j < |r|
      ensures DayOf(r[i]) != DayOf(r[j])
    {
      if i > 0 {
        SubsequenceDistinctDays(r[1..], OtherDays(history, DayOf(e)), history, i - 1, j - 1);
      }
    }
  }

  /** The newest-first half of `RecordInvariants`. */
  lemma RecordNewestFirst(history: seq<Entry>, e: Entry)
    requires NewestFirst(history)
    requires forall i :: 0 <= i < |history| ==> history[i].timestamp <= e.timestamp
    ensures NewestFirst(Record(history, e, DayOf(e)))
  {
    var r := Record(history, e, DayOf(e));
    OtherDaysOrder(history, DayOf(e));
    forall i, j | 0 <= i < j < |r|
      ensures r[i].timestamp >= r[j].timestamp
    {
      if i > 0 {
        SubsequenceOrdered(r[1..], OtherDays(history, DayOf(e)), history, i - 1, j - 1);
      }
    }
  }

  /** Subsequences of a filtered one-per-day history keep distinct days. */
  lemma SubsequenceDistinctDays(a: seq<Entry>, f: seq<Entry>, history: seq<Entry>, i: int, j: int)
    requires OnePerDay(history) && Subsequence(a, f) && Subsequence(f, history) && 0 <= i < j < |a|
    ensures DayOf(a[i]) != DayOf(a[j])
  {
    SubsequencePositions(a, f, i, j);
    var p, q :| 0 <= p < q < |f| && f[p] == a[i] && f[q] == a[j];
    SubsequencePositions(f, history, p, q);
  }

  /** Subsequences of a filtered newest-first history stay newest first. */
  lemma SubsequenceOrdered(a: seq<Entry>, f: seq<Entry>, history: seq<Entry>, i: int, j: int)
    requires NewestFirst(history) && Subsequence(a, f) && Subsequence(f, history) && 0 <= i < j < |a|
    ensures a[i].timestamp >= a[j].timestamp
  {
    SubsequencePositions(a, f, i, j);
    var p, q :| 0 <= p < q < |f| && f[p] == a[i] && f[q] == a[j];
    SubsequencePositions(f, history, p, q);
  }

  /** Inserts an entry into a newest-first list, ahead of every entry that
      is not newer, so that entries with equal timestamps keep the order they
      had (the sort is stable). */
  function InsertNewestFirst(e: Entry, sorted: seq<Entry>): (r: seq<Entry>)
    ensures multiset(r) == multiset(sorted) + multiset{e}
    ensures forall i :: 0 <= i < |r| ==> r[i] == e || r[i] in sorted
  {
    if sorted == [] || e.timestamp >= sorted[0].timestamp then [e] + sorted
    else
      assert sorted == [sorted[0]] + sorted[1..];
      [sorted[0]] + InsertNewestFirst(e, sorted[1..])
  }

  /** Inserting into a newest-first list keeps it newest first. */
  lemma {:induction false} InsertKeepsNewestFirst(e: Entry, sorted: seq<Entry>)
    requires NewestFirst(sorted)
    ensures NewestFirst(InsertNewestFirst(e, sorted))
  {
    if sorted != [] && e.timestamp < sorted[0].timestamp {
      var rest := InsertNewestFirst(e, sorted[1..]);
      InsertKeepsNewestFirst(e, sorted[1..]);
      var r := [sorted[0]] + rest;
      forall j | 0 < j < |r|
        ensures r[0].timestamp >= r[j].timestamp
      {
        assert r[j] == rest[j - 1];
        if rest[j - 1] != e {
          var k :| 0 <= k < |sorted[1..]| && sorted[1..][k] == rest[j - 1];
          assert sorted[k + 1] == r[j];
        }
      }
      assert forall i, j :: 0 < i < j < |r| ==> r[i] == rest[i - 1] && r[j] == rest[j - 1];
    }
  }

  /** `[...history].sort((a, b) => new Date(b.timestamp) - new Date(a.timestamp))`:
      the same entries, newest first. */
  function SortNewestFirst(history: seq<Entry>): (r: seq<Entry>)
    ensures multiset(r) == multiset(history) && |r| == |history|
    ensures NewestFirst(r)
  {
    if history == [] then []
    else
      assert history == [history[0]] + history[1..];
      InsertKeepsNewestFirst(history[0], SortNewestFirst(history[1..]));
      InsertNewestFirst(history[0], SortNewestFirst(history[1..]))
  }

  /** The streak of a newest-first list counted from `day` backwards: how
      many leading entries fall on `day`, `day - 1`, `day - 2`, ... one day
      each, up to the first entry that breaks the run. */
  function Streak(sorted: seq<Entry>, day: int): (r: nat)
    ensures r <= |sorted|
    ensures forall i :: 0 <= i < r ==> DayOf(sorted[i]) == day - i
    ensures r < |sorted| ==> DayOf(sorted[r]) != day - r
  {
    if sorted != [] && DayOf(sorted[0]) == day then
      var rest := Streak(sorted[1..], day - 1);
      assert forall i :: 1 <= i < 1 + rest ==> sorted[i] == sorted[1..][i - 1];
      1 + rest
    else 0
  }

  /** `calculateStreak`: the history is sorted newest first and walked from
      today backwards, one day per entry, until an entry misses its day. */
  method CalculateStreak(history: seq<Entry>, now: int) returns (streak: nat)
    ensures streak == Streak(SortNewestFirst(history), JsDate.Day(now))
    ensures streak <= |history|
  {
    if |history| == 0 {
      return 0;
    }
    streak := 0;
    var sorted := SortNewestFirst(history);
    var today := JsDate.Day(now);
    var currentDate := today;
    var i := 0;
    assert sorted[0..] == sorted;
    while i < |sorted|
      invariant 0 <= i <= |sorted| && streak == i && currentDate == today - i
      invariant Streak(sorted, today) == i + Streak(sorted[i..], currentDate)
    {
      var rest := sorted[i..];
      assert rest[0] == sorted[i] && rest[1..] == sorted[i + 1..];
      if DayOf(sorted[i]) == currentDate {
        streak := streak + 1;
        currentDate := currentDate - 1;
      } else {
        break;
      }
      i := i + 1;
    }
  }

  /** Without an entry for today the streak is 0. */
  lemma StreakNeedsToday(history: seq<Entry>, today: int)
    requires forall i :: 0 <= i < |history| ==> DayOf(history[i]) != today
    ensures Streak(SortNewestFirst(history), today) == 0
  {
    var sorted := SortNewestFirst(history);
    if sorted != [] {
      assert sorted[0] in multiset(sorted);
      assert sorted[0] in history;
    }
  }

  /** Right after a mood is logged the streak is at least 1, provided no
      entry of the history lies after the moment of logging. */
  lemma StreakAfterRecord(history: seq<Entry>, m: Mood, now: int)
    requires forall i :: 0 <= i < |history| ==> history[i].timestamp <= now
    ensures Streak(SortNewestFirst(Record(history, EntryOf(m, now), JsDate.Day(now))), JsDate.Day(now)) >= 1
  {
    var e := EntryOf(m, now);
    var r := Record(history, e, JsDate.Day(now));
    forall i | 0 <= i < |r|
      ensures r[i].timestamp <= e.timestamp
    {
      if i > 0 {
        var k :| 0 <= k < |history| && history[k] == r[i];
      }
    }
    SortedHeadIsLatest(r, e);
  }

  /** Sorting newest first puts an entry with the latest timestamp first. */
  lemma SortedHeadIsLatest(xs: seq<Entry>, e: Entry)
    requires e in xs
    requires forall i :: 0 <= i < |xs| ==> xs[i].timestamp <= e.timestamp
    ensures SortNewestFirst(xs) != [] && SortNewestFirst(xs)[0].timestamp == e.timestamp
  {
    var sorted := SortNewestFirst(xs);
    assert multiset(sorted) == multiset(xs);
    assert e in multiset(xs);
    assert e in sorted;
    var k :| 0 <= k < |sorted| && sorted[k] == e;
    assert sorted[0].timestamp >= e.timestamp by {
      if k > 0 {
        assert NewestFirst(sorted);
      }
    }
    assert sorted[0] in xs by {
      assert sorted[0] in multiset(sorted);
    }
    var j :| 0 <= j < |xs| && xs[j] == sorted[0];
  }

  /** How many of the entries carry the mood name. */
  function Tally(entries: seq<Entry>, name: string): (n: nat)
    ensures n <= |entries|
  {
    if entries == [] then 0
    else Tally(entries[..|entries| - 1], name) + (if entries[|entries| - 1].mood == name then 1 else 0)
  }

  /** A name is tallied exactly when some entry carries it. */
  lemma {:induction false} TallyPositive(entries: seq<Entry>, name: string)
    ensures Tally(entries, name) > 0 <==> exists i :: 0 <= i < |entries| && entries[i].mood == name
  {
    if entries != [] {
      var init := entries[..|entries| - 1];
      TallyPositive(init, name);
      if Tally(init, name) > 0 {
        var i :| 0 <= i < |init| && init[i].mood == name;
        assert entries[i].mood == name;
      }
      if exists i :: 0 <= i < |entries| && entries[i].mood == name {
        var i :| 0 <= i < |entries| && entries[i].mood == name;
        if i < |init| {
          assert init[i].mood == name;
        }
      }
    }
  }

  /** The labels of the entries, each once, in order of first appearance
      (the key order of the `moodCounts` object). */
  function Labels(entries: seq<Entry>): (ks: seq<string>)
    ensures forall k :: k in ks <==> Tally(entries, k) > 0
    ensures forall i, j :: 0 <= i < j < |ks| ==> ks[i] != ks[j]
  {
    if entries == [] then []
    else
      var ks := Labels(entries[..|entries| - 1]);
      var k := entries[|entries| - 1].mood;
      if k in ks then ks else ks + [k]
  }

  /** The `forEach` that fills `moodCounts`: one pass over the entries adds
      each new name as a key, in order, and counts its entries. */
  method CountMoods(entries: seq<Entry>) returns (keys: seq<string>, counts: map<string, nat>)
    ensures keys == Labels(entries)
    ensures forall k :: k in counts <==> k in keys
    ensures forall k :: k in counts ==> counts[k] == Tally(entries, k)
  {
    keys := [];
    counts := map[];
    for i := 0 to |entries|
      invariant keys == Labels(entries[..i])
      invariant forall k :: k in counts <==> k in keys
      invariant forall k :: k in counts ==> counts[k] == Tally(entries[..i], k)
    {
      assert entries[..i + 1][..i] == entries[..i];
      var k := entries[i].mood;
      if k !in counts {
        keys := keys + [k];
        counts := counts[k := 1];
      } else {
        counts := counts[k := counts[k] + 1];
      }
    }
    assert entries[..|entries|] == entries;
  }

  /** `Object.keys(moodCounts).reduce((a, b) => moodCounts[a] > moodCounts[b] ? a : b)`:
      a key of greatest count, and of those the last, since a tie hands the
      lead to the later key. */
  function MostFrequent(keys: seq<string>, counts: map<string, nat>): (r: string)
    requires |keys| > 0 && forall k :: k in keys ==> k in counts
    ensures r in keys
    ensures forall k :: k in keys ==> counts[k] <= counts[r]
    ensures exists i :: LastOfMost(keys, counts, r, i)
  {
    if |keys| == 1 then
      assert LastOfMost(keys, counts, keys[0], 0);
      keys[0]
    else
      var init := keys[..|keys| - 1];
      var a := MostFrequent(init, counts);
      var b := keys[|keys| - 1];
      assert forall k :: k in keys ==> k in init || k == b;
      if counts[a] > counts[b] then
        var i :| LastOfMost(init, counts, a, i);
        assert keys[i] == init[i];
        assert LastOfMost(keys, counts, a, i);
        a
      else
        assert LastOfMost(keys, counts, b, |keys| - 1);
        b
  }

  /** `keys[i]` is `k`, and every key after it counts strictly less. */
  predicate LastOfMost(keys: seq<string>, counts: map<string, nat>, k: string, i: int)
    requires forall k :: k in keys ==> k in counts
  {
    0 <= i < |keys| && keys[i] == k && k in counts
    && forall j :: i < j < |keys| ==> counts[keys[j]] < counts[k]
  }

  /** `name` is the most frequent mood of the entries as `getMoodStats`
      reports it: no mood is more frequent, and no mood first seen after it
      is as frequent. */
  ghost predicate IsMostFrequent(entries: seq<Entry>, name: string)
  {
    var ks := Labels(entries);
    Tally(entries, name) > 0
    && (forall k :: Tally(entries, k) <= Tally(entries, name))
    && (exists i :: 0 <= i < |ks| && ks[i] == name && LaterLessFrequent(entries, ks, i))
  }

  /** Every label listed after index `i` is tallied strictly less often than `ks[i]`. */
  predicate LaterLessFrequent(entries: seq<Entry>, ks: seq<string>, i: int)
    requires 0 <= i < |ks|
  {
    forall j :: i < j < |ks| ==> Tally(entries, ks[j]) < Tally(entries, ks[i])
  }

  /** At most one mood is the most frequent, so the description above fixes
      the reported mood. */
  lemma MostFrequentUnique(entries: seq<Entry>, a: string, b: string)
    requires IsMostFrequent(entries, a) && IsMostFrequent(entries, b)
    ensures a == b
  {
    var ks := Labels(entries);
    var i :| 0 <= i < |ks| && ks[i] == a && LaterLessFrequent(entries, ks, i);
    var k :| 0 <= k < |ks| && ks[k] == b && LaterLessFrequent(entries, ks, k);
    assert Tally(entries, a) == Tally(entries, b);
  }

  /** The first seven entries, the ones the summary is taken over. */
  function LastSeven(history: seq<Entry>): (r: seq<Entry>)
    ensures |r| == if |history| < 7 then |history| else 7
    ensures r == history[..|r|]
  {
    if |history| < 7 then history else history[..7]
  }

  /** The summary `getMoodStats` returns; the average, a float, is left out. */
  datatype MoodStats = MoodStats(mostFrequent: string, totalEntries: nat, streak: nat)

  /** `getMoodStats`: nothing for an empty history; otherwise the most
      frequent mood of the first seven entries, the number of entries and
      the streak. */
  method GetMoodStats(history: seq<Entry>, now: int) returns (stats: Option<MoodStats>)
    ensures stats.None? <==> |history| == 0
    ensures stats.Some? ==>
      stats.value.totalEntries == |history|
      && stats.value.streak == Streak(SortNewestFirst(history), JsDate.Day(now))
      && IsMostFrequent(LastSeven(history), stats.value.mostFrequent)
  {
    if |history| == 0 {
      return None;
    }
    var last7 := LastSeven(history);
    var keys, counts := CountMoods(last7);
    TallyPositive(last7, last7[0].mood);
    assert last7[0].mood in keys;
    var mostFrequent := MostFrequent(keys, counts);
    var i :| LastOfMost(keys, counts, mostFrequent, i);
    assert LaterLessFrequent(last7, keys, i);
    var streak := CalculateStreak(history, now);
    stats := Some(MoodStats(mostFrequent, |history|, streak));
  }

  /** The first entry logged on the given day, if any (what
      `checkTodayMood` finds). */
  function TodayEntry(history: seq<Entry>, today: int): (r: Option<Entry>)
    ensures r.None? <==> forall i :: 0 <= i < |history| ==> DayOf(history[i]) != today
    ensures r.Some? ==> r.value in history && DayOf(r.value) == today
    ensures r.Some? ==>
      exists i :: 0 <= i < |history| && history[i] == r.value && forall j :: 0 <= j < i ==> DayOf(history[j]) != today
  {
    Find((e: Entry) => DayOf(e) == today, history)
  }

  /** The mood tracker's state together with the local-storage entry
      `sneho_mood_history`. */
  class MoodTracker {
    var selectedMood: Option<Mood>
    var history: seq<Entry>
    var todayMood: Option<Entry>
    var stored: Option<seq<Entry>>

    /** Mounting: `loadMoodHistory` restores the stored history and
        `checkTodayMood` picks out today's entry from it. */
    constructor (saved: Option<seq<Entry>>, now: int)
      ensures stored == saved && selectedMood.None?
      ensures saved.Some? ==> history == saved.value && todayMood == TodayEntry(saved.value, JsDate.Day(now))
      ensures saved.None? ==> history == [] && todayMood.None?
    {
      selectedMood := None;
      stored := saved;
      if saved.Some? {
        history := saved.value;
        todayMood := TodayEntry(saved.value, JsDate.Day(now));
      } else {
        history := [];
        todayMood := None;
      }
    }

    /** `handleMoodSelect`: the new entry becomes today's mood and heads the
        history, today's older entries are dropped, the history is cut to 30
        entries and saved. */
    method HandleMoodSelect(mood: Mood, now: int)
      modifies this
      ensures selectedMood == Some(mood) && todayMood == Some(EntryOf(mood, now))
      ensures history == Record(old(history), EntryOf(mood, now), JsDate.Day(now))
      ensures stored == Some(history)
    {
      selectedMood := Some(mood);
      var newEntry := EntryOf(mood, now);
      todayMood := Some(newEntry);
      var updatedHistory := Record(history, newEntry, JsDate.Day(now));
      history := updatedHistory;
      stored := Some(updatedHistory);
    }

    /** The "change" action: today's entries are removed, the rest kept in
        order, and nothing is selected. */
    method ChangeTodayMood(now: int)
      modifies this
      ensures selectedMood.None? && todayMood.None?
      ensures history == OtherDays(old(history), JsDate.Day(now))
      ensures stored == Some(history)
    {
      selectedMood := None;
      todayMood := None;
      var updatedHistory := OtherDays(history, JsDate.Day(now));
      history := updatedHistory;
      stored := Some(updatedHistory);
    }

    /** `clearMoodHistory`: when the user confirms, everything is emptied and
        the stored history removed; otherwise nothing changes. */
    method ClearMoodHistory(confirmed: bool)
      modifies this
      ensures confirmed ==> history == [] && todayMood.None? && selectedMood.None? && stored.None?
      ensures !confirmed ==>
        history == old(history) && todayMood == old(todayMood)
        && selectedMood == old(selectedMood) && stored == old(stored)
    {
      if confirmed {
        history := [];
        todayMood := None;
        selectedMood := None;
        stored := None;
      }
    }
  }
}
