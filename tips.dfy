/** The seasonal advice of `HealthTips.jsx`: the current month picks one of
    Bangladesh's three seasons, and the season's key selects its tip
    categories from a fixed table. */
module SeasonalTips {

  /** The three seasons the component tells apart. */
  datatype Season = Monsoon | Winter | Summer

  /** A tip category: a title and its tips. */
  datatype TipCategory = TipCategory(title: string, tips: seq<string>)

  /** The season of a month as `getMonth()` numbers it (0 = January). The
      branches are tried in the component's order: monsoon, then winter,
      then summer for everything else. */
  function SeasonOf(month: int): Season
  {
    if 5 <= month <= 8 then Monsoon
    else if month >= 11 || month <= 1 then Winter
    else Summer
  }

  /** The season of each month, January first, as a table. */
  const SeasonByMonth: seq<Season> :=
    [Winter, Winter, Summer, Summer, Summer, Monsoon, Monsoon, Monsoon, Monsoon, Summer, Summer, Winter]

  /** Every month gets exactly the season the table lists for it: June to
      September are the monsoon, December to February the winter, and the
      other five months the summer. */
  lemma {:induction false} SeasonOfTable(month: int)
    requires 0 <= month < 12
    ensures SeasonOf(month) == SeasonByMonth[month]
  {
    if month == 0 {} else if month == 1 {} else if month == 2 {} else if month == 3 {}
    else if month == 4 {} else if month == 5 {} else if month == 6 {} else if month == 7 {}
    else if month == 8 {} else if month == 9 {} else if month == 10 {} else {}
  }

  /** The key the season is looked up by. */
  function SeasonKey(s: Season): string
  {
    match s
    case Monsoon => "monsoon"
    case Winter => "winter"
    case Summer => "summer"
  }

  /** The Bengali name shown for the season. */
  function SeasonName(s: Season): string
  {
    match s
    case Monsoon => "বর্ষা"
    case Winter => "শীত"
    case Summer => "গ্রীষ্ম"
  }

  /** The tips table, by season key. */
  const SeasonalTable: map<string, seq<TipCategory>> := map[
    "monsoon" := [
      TipCategory("ডেঙ্গু প্রতিরোধ", [
        "মশারি ব্যবহার করুন",
        "বাড়ির চারপাশে পানি জমতে দেবেন না",
        "ফুল হাতা জামা পরুন"]),
      TipCategory("পানিবাহিত রোগ", [
        "পানি ফুটিয়ে পান করুন",
        "বাইরের খোলা খাবার এড়িয়ে চলুন",
        "হাত ভালোভাবে ধুয়ে নিন"])],
    "winter" := [
      TipCategory("সর্দি-কাশি প্রতিরোধ", [
        "গরম কাপড় পরুন",
        "গরম পানি ও স্যুপ পান করুন",
        "শিশুদের গরম কাপড়ে মুড়ে দিন"]),
      TipCategory("ত্বকের যত্ন", [
        "নিয়মিত ময়েশ্চারাইজার ব্যবহার করুন",
        "গরম পানি দিয়ে গোসল করবেন না",
        "পর্যাপ্ত পানি পান করুন"])],
    "summer" := [
      TipCategory("হিট স্ট্রোক প্রতিরোধ", [
        "প্রচুর পানি ও তরল পান করুন",
        "সূর্যের তাপ এড়িয়ে চলুন",
        "হালকা রঙের সুতি কাপড় পরুন"]),
      TipCategory("ডায়রিয়া প্রতিরোধ", [
        "বাড়িতে ORS তৈরি করে রাখুন",
        "বাইরের কাটা ফল এড়িয়ে চলুন",
        "খাবার গরম অবস্থায় খান"])]
  ]

  /** `loadSeasonalTips`: the table entry for the key, or no tips for a key
      the table lacks. */
  function LoadSeasonalTips(key: string): (r: seq<TipCategory>)
    ensures key !in SeasonalTable ==> r == []
    ensures key in SeasonalTable ==> r == SeasonalTable[key]
  {
    if key in SeasonalTable then SeasonalTable[key] else []
  }

  /** Only the three season keys have tips; any other key yields none. */
  lemma UnknownKeyHasNoTips(key: string)
    requires key != "monsoon" && key != "winter" && key != "summer"
    ensures LoadSeasonalTips(key) == []
  {
  }

  /** Every season's key finds two categories of three tips each. */
  lemma SeasonTipsShape(s: Season)
    ensures |LoadSeasonalTips(SeasonKey(s))| == 2
    ensures forall c :: c in LoadSeasonalTips(SeasonKey(s)) ==> |c.tips| == 3
  {
  }

  /** What the mount effect shows for a month: the season's name and tips. */
  function SeasonalView(month: int): (r: (string, seq<TipCategory>))
    ensures r.0 == SeasonName(SeasonOf(month))
    ensures r.1 == LoadSeasonalTips(SeasonKey(SeasonOf(month))) && |r.1| == 2
  {
    var s := SeasonOf(month);
    SeasonTipsShape(s);
    (SeasonName(s), LoadSeasonalTips(SeasonKey(s)))
  }
}
