/** The health facility map of `HealthMap.jsx`: three cascading selectors
    (division, district, upazilla) narrow a fixed table of facilities, the
    map re-centres on the selected division, and each facility type gets a
    marker icon. Coordinates are degrees scaled by 10000, the four decimals
    the component writes. */
module FacilityMap {
  import opened Js

  /** A health facility (`ftype` is the component's `type`). */
  datatype Facility = Facility(
    id: nat, name: string, ftype: string,
    division: string, district: string, upazilla: string,
    services: seq<string>, phone: string, beds: nat, coordinates: (int, int),
    landmark: string, transport: string, nearest: string)

  /** A community landmark shown beside the facilities. */
  datatype Landmark = Landmark(id: string, name: string, ltype: string, coordinates: (int, int), description: string)

  /** The approximate centre of each division. */
  const DivisionCoordinates: map<string, (int, int)> := map[
    "ঢাকা" := (238103, 904125),
    "চট্টগ্রাম" := (223569, 917832),
    "রাজশাহী" := (243745, 886042),
    "খুলনা" := (228456, 895403),
    "সিলেট" := (248910, 918710),
    "বরিশাল" := (227010, 903535),
    "রংপুর" := (257439, 892752),
    "ময়মনসিংহ" := (247471, 904203)
  ]

  /** The centre the map starts on: Dhaka. */
  const DhakaCentre: (int, int) := (238103, 904125)

  /** The facility table with the upazilla of the fifth facility written
      in Bengali script throughout: the table as evidently intended (the
      component's own table is `AsWrittenFacilities`). */
  const CorrectedFacilities: seq<Facility> := [
    Facility(1, "ঢাকা মেডিকেল কলেজ হাসপাতাল", "হাসপাতাল",
      "ঢাকা", "ঢাকা", "ঢাকা সদর",
      ["জরুরী", "অপারেশন", "এমবিবিএস ডাক্তার"], "02-9661061", 500, (237167, 903967),
      "বাংলাদেশ ব্যাংকের পাশে, পুরান ঢাকা",
      "বাস স্টপ: মেডিকেল কলেজ গেট, রিকশা/অটো পাওয়া যায়",
      "নিকটস্থ কমিউনিটি ক্লিনিক: ১.৫ কিমি"),
    Facility(2, "বঙ্গবন্ধু শেখ মুজিব মেডিকেল বিশ্ববিদ্যালয়", "বিশেষায়িত হাসপাতাল",
      "ঢাকা", "ঢাকা", "শাহবাগ",
      ["ক্যান্সার", "হৃদরোগ", "নিউরোলজি"], "02-55165000", 800, (237333, 903986),
      "শাহবাগ মোড়, বাংলাদেশ জাতীয় জাদুঘরের কাছে",
      "মেট্রো রেল: শাহবাগ স্টেশন, বাস স্টপ: শাহবাগ",
      "নিকটস্থ ফার্মেসি: ২০০ মিটার"),
    Facility(3, "চট্টগ্রাম মেডিকেল কলেজ হাসপাতাল", "হাসপাতাল",
      "চট্টগ্রাম", "চট্টগ্রাম", "চট্টগ্রাম সদর",
      ["জরুরী", "প্রসূতি", "শিশু"], "031-632104", 300, (223667, 918000),
      "আগরতলা রোড, পাহাড়তলী এলাকায়",
      "সিটি বাস রুট, সিএনজি/অটো সহজলভ্য",
      "নিকটস্থ ডায়াগনস্টিক সেন্টার: ৫০০ মিটার"),
    Facility(4, "স্যার সলিমুল্লাহ মেডিকেল কলেজ হাসপাতাল", "হাসপাতাল",
      "ঢাকা", "ঢাকা", "মিটফোর্ড",
      ["জরুরী", "মেডিসিন", "সার্জারি"], "02-7318611", 400, (237083, 904075),
      "মিটফোর্ড রোড, বুড়িগঙ্গা নদীর পাশে",
      "লঞ্চ ঘাট থেকে ২ কিমি, রিকশা পাওয়া যায়",
      "স্কুলের পাশে, ইংরেজি মাধ্যম স্কুলের সামনে"),
    Facility(5, "কুমুদিনী উইমেন্স মেডিকেল কলেজ", "বিশেষায়িত হাসপাতাল",
      "ঢাকা", "টাঙ্গাইল", "টাঙ্গাইল সদর",
      ["গাইনোকলজি", "প্রসূতি", "শিশু"], "0921-55033", 200, (242553, 899167),
      "টাঙ্গাইল সদর, বাস স্ট্যান্ডের নিকটে",
      "বাস স্ট্যান্ড: ৫০০ মিটার, অটো/সিএনজি উপলব্ধ",
      "নিকটস্থ কমিউনিটি ক্লিনিক: ২ কিমি"),
    Facility(6, "সাতক্ষীরা সদর হাসপাতাল", "হাসপাতাল",
      "খুলনা", "সাতক্ষীরা", "সাতক্ষীরা সদর",
      ["জরুরী", "মেডিসিন", "সার্জারি"], "0471-62333", 150, (227167, 890667),
      "জেলা সদর দপ্তরের পাশে, প্রধান সড়কে",
      "বাস/টেম্পু স্ট্যান্ড: ১ কিমি",
      "মসজিদের পাশে, জুমার মসজিদ সংলগ্ন")
  ]

  /** The facility table exactly as the component writes it: the fifth
      facility's upazilla ends in the Devanagari letter RA (U+0930) instead
      of the Bengali RA (U+09B0). */
  const AsWrittenFacilities: seq<Facility> := CorrectedFacilities[4 := CorrectedFacilities[4].(upazilla := "টাঙ্গাইল সদर")]

  /** The landmarks. */
  const Landmarks: seq<Landmark> := [
    Landmark("lm1", "স্থানীয় বাজার", "landmark", (237200, 904000), "কawরান বাজার - সব ধরনের জিনিসপত্র পাওয়া যায়"),
    Landmark("lm2", "কমিউনিটি ক্লিনিক", "clinic", (237250, 903950), "ফ্রি প্রাথমিক চিকিৎসা, ওষুধ বিনামূল্যে"),
    Landmark("lm3", "ফার্মেসি", "pharmacy", (237300, 904020), "২৪ ঘন্টা খোলা, সকল ধরনের ওষুধ available"),
    Landmark("lm4", "স্কুল সংলগ্ন ক্লিনিক", "clinic", (237350, 903900), "স্কুলের পাশে, শিশুদের জন্য বিশেষায়িত")
  ]

  /** The test of `filteredFacilities`: each non-empty selector must equal
      the facility's field; an empty selector accepts everything. */
  predicate Selected(f: Facility, division: string, district: string, upazilla: string)
  {
    (division == "" || f.division == division)
    && (district == "" || f.district == district)
    && (upazilla == "" || f.upazilla == upazilla)
  }

  /** `filteredFacilities` over a table. */
  function FilterFacilities(facilities: seq<Facility>, division: string, district: string, upazilla: string): (r: seq<Facility>)
    ensures |r| <= |facilities|
    ensures forall i :: 0 <= i < |r| ==> r[i] in facilities && Selected(r[i], division, district, upazilla)
    ensures forall i :: 0 <= i < |facilities| && Selected(facilities[i], division, district, upazilla) ==>
      facilities[i] in r
  {
    Filter((f: Facility) => Selected(f, division, district, upazilla), facilities)
  }

  /** With every selector empty, all facilities are shown. */
  lemma AllSelectorsEmpty(facilities: seq<Facility>)
    ensures FilterFacilities(facilities, "", "", "") == facilities
  {
    FilterAll((f: Facility) => Selected(f, "", "", ""), facilities);
  }

  /** The filter keeps the table's order. */
  lemma FilterFacilitiesOrder(facilities: seq<Facility>, division: string, district: string, upazilla: string)
    ensures Subsequence(FilterFacilities(facilities, division, district, upazilla), facilities)
  {
    FilterSubsequence((f: Facility) => Selected(f, division, district, upazilla), facilities);
  }

  /** Picking an upazilla only narrows what the district alone shows, and
      picking a district only narrows what the division alone shows. */
  lemma SelectingNarrows(facilities: seq<Facility>, division: string, district: string, upazilla: string)
    ensures Subsequence(FilterFacilities(facilities, division, district, upazilla), FilterFacilities(facilities, division, district, ""))
    ensures Subsequence(FilterFacilities(facilities, division, district, ""), FilterFacilities(facilities, division, "", ""))
  {
    FilterNarrower((f: Facility) => Selected(f, division, district, upazilla),
                   (f: Facility) => Selected(f, division, district, ""), facilities);
    FilterNarrower((f: Facility) => Selected(f, division, district, ""),
                   (f: Facility) => Selected(f, division, "", ""), facilities);
  }

  /** A facility as one step of the filter keeps it: itself when selected,
      nothing otherwise. */
  function Kept(f: Facility, division: string, district: string, upazilla: string): seq<Facility>
  {
    if Selected(f, division, district, upazilla) then [f] else []
  }

  /** The filter over a six-row table, row by row. */
  lemma FilterSixRows(t: seq<Facility>, division: string, district: string, upazilla: string)
    requires |t| == 6
    ensures FilterFacilities(t, division, district, upazilla) ==
      Kept(t[0], division, district, upazilla) + Kept(t[1], division, district, upazilla)
      + Kept(t[2], division, district, upazilla) + Kept(t[3], division, district, upazilla)
      + Kept(t[4], division, district, upazilla) + Kept(t[5], division, district, upazilla)
  {
    var p := (f: Facility) => Selected(f, division, district, upazilla);
    assert t == [t[0]] + [t[1]] + [t[2]] + [t[3]] + [t[4]] + [t[5]];
    forall f | true
      ensures Filter(p, [f]) == Kept(f, division, district, upazilla)
    {
      assert [f][1..] == [];
    }
    FilterAppend(p, [t[0]] + [t[1]] + [t[2]] + [t[3]] + [t[4]], [t[5]]);
    FilterAppend(p, [t[0]] + [t[1]] + [t[2]] + [t[3]], [t[4]]);
    FilterAppend(p, [t[0]] + [t[1]] + [t[2]], [t[3]]);
    FilterAppend(p, [t[0]] + [t[1]], [t[2]]);
    FilterAppend(p, [t[0]], [t[1]]);
  }

  /** On opening, with Dhaka division and Dhaka district selected, the map
      lists the first, second and fourth facilities. */
  lemma InitialSelection()
    ensures FilterFacilities(AsWrittenFacilities, "ঢাকা", "ঢাকা", "") == [AsWrittenFacilities[0], AsWrittenFacilities[1], AsWrittenFacilities[3]]
  {
    FilterSixRows(AsWrittenFacilities, "ঢাকা", "ঢাকা", "");
    DhakaRows();
  }

  /** Row by row, which facilities lie in Dhaka district. */
  lemma DhakaRows()
    ensures Kept(AsWrittenFacilities[0], "ঢাকা", "ঢাকা", "") == [AsWrittenFacilities[0]]
    ensures Kept(AsWrittenFacilities[1], "ঢাকা", "ঢাকা", "") == [AsWrittenFacilities[1]]
    ensures Kept(AsWrittenFacilities[2], "ঢাকা", "ঢাকা", "") == []
    ensures Kept(AsWrittenFacilities[3], "ঢাকা", "ঢাকা", "") == [AsWrittenFacilities[3]]
    ensures Kept(AsWrittenFacilities[4], "ঢাকা", "ঢাকা", "") == []
    ensures Kept(AsWrittenFacilities[5], "ঢাকা", "ঢাকা", "") == []
  {
  }

  /** With the table as written, choosing the Tangail Sadar upazilla (in
      Bengali script) hides the women's medical college located there. */
  lemma AsWrittenHidesFifthFacility()
    ensures AsWrittenFacilities[4] !in FilterFacilities(AsWrittenFacilities, "ঢাকা", "টাঙ্গাইল", "টাঙ্গাইল সদর")
  {
    var r := FilterFacilities(AsWrittenFacilities, "ঢাকা", "টাঙ্গাইল", "টাঙ্গাইল সদর");
    assert AsWrittenFacilities[4].upazilla != "টাঙ্গাইল সদর";
  }

  /** With the corrected table, the same choice lists it. */
  lemma CorrectedShowsFifthFacility()
    ensures FilterFacilities(CorrectedFacilities, "ঢাকা", "টাঙ্গাইল", "টাঙ্গাইল সদর") == [CorrectedFacilities[4]]
  {
    FilterSixRows(CorrectedFacilities, "ঢাকা", "টাঙ্গাইল", "টাঙ্গাইল সদর");
    assert Kept(CorrectedFacilities[0], "ঢাকা", "টাঙ্গাইল", "টাঙ্গাইল সদর") == [];
    assert Kept(CorrectedFacilities[1], "ঢাকা", "টাঙ্গাইল", "টাঙ্গাইল সদর") == [];
    assert Kept(CorrectedFacilities[2], "ঢাকা", "টাঙ্গাইল", "টাঙ্গাইল সদর") == [];
    assert Kept(CorrectedFacilities[3], "ঢাকা", "টাঙ্গাইল", "টাঙ্গাইল সদর") == [];
    assert Kept(CorrectedFacilities[5], "ঢাকা", "টাঙ্গাইল", "টাঙ্গাইল সদর") == [];
  }

  /** The administrative data the selectors offer, as ordered key lists:
      each division's districts, each district's upazillas. */
  datatype DivisionData = DivisionData(districts: seq<(string, seq<string>)>)

  /** The value stored under a key of an ordered key list, if any. */
  function Lookup<V>(entries: seq<(string, V)>, key: string): (r: Option<V>)
    ensures r.None? <==> forall i :: 0 <= i < |entries| ==> entries[i].0 != key
    ensures r.Some? ==> exists i :: 0 <= i < |entries| && entries[i] == (key, r.value)
  {
    match FindIndex((e: (string, V)) => e.0 == key, entries)
    case None => None
    case Some(i) => Some(entries[i].1)
  }

  /** The keys of an ordered key list (`Object.keys`). */
  function Keys<V>(entries: seq<(string, V)>): (ks: seq<string>)
    ensures |ks| == |entries|
    ensures forall i :: 0 <= i < |entries| ==> ks[i] == entries[i].0
  {
    Map((e: (string, V)) => e.0, entries)
  }

  /** The district options: none without a division, otherwise the districts
      of the selected division (none when the data lacks it). */
  function DistrictOptions(data: seq<(string, DivisionData)>, division: string): (r: seq<string>)
    ensures division == "" ==> r == []
    ensures Lookup(data, division).None? ==> r == []
    ensures division != "" && Lookup(data, division).Some? ==> r == Keys(Lookup(data, division).value.districts)
  {
    if division == "" then []
    else match Lookup(data, division)
      case None => []
      case Some(d) => Keys(d.districts)
  }

  /** The division data lists these upazillas for the district. */
  predicate Lists(d: DivisionData, district: string, upazillas: seq<string>)
  {
    exists j :: 0 <= j < |d.districts| && d.districts[j] == (district, upazillas)
  }

  /** The upazilla options: none without a district, otherwise those of the
      selected district of the selected division (none when either is
      missing from the data). */
  function UpazillaOptions(data: seq<(string, DivisionData)>, division: string, district: string): (r: seq<string>)
    ensures district == "" ==> r == []
    ensures r != [] ==> exists i :: 0 <= i < |data| && data[i].0 == division && Lists(data[i].1, district, r)
    ensures Lookup(data, division).None? ==> r == []
    ensures Lookup(data, division).Some? ==>
      var ds := Lookup(data, division).value.districts;
      (Lookup(ds, district).None? ==> r == [])
      && (district != "" && Lookup(ds, district).Some? ==> r == Lookup(ds, district).value)
  {
    if district == "" then []
    else match Lookup(data, division)
      case None => []
      case Some(d) =>
        match Lookup(d.districts, district)
        case None => []
        case Some(u) => u
  }

  /** The marker icons. */
  datatype Icon = HospitalIcon | ClinicIcon | PharmacyIcon

  /** `getIconForType`: both hospital types and any unknown type get the
      hospital icon. */
  function IconForType(ftype: string): (r: Icon)
    ensures r == ClinicIcon <==> ftype == "clinic"
    ensures r == PharmacyIcon <==> ftype == "pharmacy"
    ensures r == HospitalIcon <==> ftype != "clinic" && ftype != "pharmacy"
  {
    match ftype
    case "হাসপাতাল" => HospitalIcon
    case "বিশেষায়িত হাসপাতাল" => HospitalIcon
    case "clinic" => ClinicIcon
    case "pharmacy" => PharmacyIcon
    case _ => HospitalIcon
  }

  /** Every facility in the table is a hospital marker; the landmarks get
      the hospital, clinic, pharmacy and clinic markers in turn. */
  lemma TableIcons()
    ensures forall i :: 0 <= i < |AsWrittenFacilities| ==> IconForType(AsWrittenFacilities[i].ftype) == HospitalIcon
    ensures Map((l: Landmark) => IconForType(l.ltype), Landmarks) == [HospitalIcon, ClinicIcon, PharmacyIcon, ClinicIcon]
  {
  }

  /** The map centre a division asks for: its table entry, or no change
      (`None`) when it is empty or absent. */
  function CentreFor(division: string): (r: Option<(int, int)>)
    ensures r.Some? <==> division != "" && division in DivisionCoordinates
    ensures r.Some? ==> r.value == DivisionCoordinates[division]
  {
    if division != "" && division in DivisionCoordinates then Some(DivisionCoordinates[division]) else None
  }

  /** The map's selector and view state. */
  class MapView {
    var selectedDivision: string
    var selectedDistrict: string
    var selectedUpazilla: string
    var mapCenter: (int, int)
    var showMap: bool

    /** The centre agrees with the selected division whenever the table
        knows it, so re-running the centre effect for an unchanged division
        changes nothing. */
    ghost predicate Valid()
      reads this
    {
      CentreFor(selectedDivision).Some? ==> mapCenter == CentreFor(selectedDivision).value
    }

    constructor ()
      ensures selectedDivision == "ঢাকা" && selectedDistrict == "ঢাকা" && selectedUpazilla == ""
      ensures mapCenter == DhakaCentre && showMap
      ensures Valid()
      ensures Shown() == [AsWrittenFacilities[0], AsWrittenFacilities[1], AsWrittenFacilities[3]]
    {
      selectedDivision := "ঢাকা";
      selectedDistrict := "ঢাকা";
      selectedUpazilla := "";
      mapCenter := DhakaCentre;
      showMap := true;
      InitialSelection();
    }

    /** The facilities the current selection shows, from the component's
        own table: exactly the selected ones, in table order. */
    function Shown(): (r: seq<Facility>)
      reads this
      ensures forall f :: f in r <==> f in AsWrittenFacilities && Selected(f, selectedDivision, selectedDistrict, selectedUpazilla)
      ensures Subsequence(r, AsWrittenFacilities)
    {
      FilterFacilitiesOrder(AsWrittenFacilities, selectedDivision, selectedDistrict, selectedUpazilla);
      FilterFacilities(AsWrittenFacilities, selectedDivision, selectedDistrict, selectedUpazilla)
    }

    /** The division selector's handler, followed by the centre effect:
        district and upazilla are cleared, and the map moves to the
        division's centre when the table has one. */
    method OnDivisionChange(value: string)
      modifies this`selectedDivision, this`selectedDistrict, this`selectedUpazilla, this`mapCenter
      ensures selectedDivision == value && selectedDistrict == "" && selectedUpazilla == ""
      ensures CentreFor(value).Some? ==> mapCenter == CentreFor(value).value
      ensures CentreFor(value).None? ==> mapCenter == old(mapCenter)
      ensures Valid()
    {
      selectedDivision := value;
      selectedDistrict := "";
      selectedUpazilla := "";
      var centre := CentreFor(selectedDivision);
      if centre.Some? {
        mapCenter := centre.value;
      }
    }

    /** The district selector's handler: the upazilla is cleared. */
    method OnDistrictChange(value: string)
      requires Valid()
      modifies this`selectedDistrict, this`selectedUpazilla
      ensures selectedDistrict == value && selectedUpazilla == ""
      ensures Valid()
    {
      selectedDistrict := value;
      selectedUpazilla := "";
    }

    /** The upazilla selector's handler. */
    method OnUpazillaChange(value: string)
      requires Valid()
      modifies this`selectedUpazilla
      ensures selectedUpazilla == value
      ensures Valid()
    {
      selectedUpazilla := value;
    }

    /** The map/list toggle. */
    method ToggleMap()
      modifies this`showMap
      ensures showMap == !old(showMap)
    {
      showMap := !showMap;
    }
  }
}
