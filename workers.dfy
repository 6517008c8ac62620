/** The community health worker directory of `CHWDirectory.jsx`: a fixed
    list of workers filtered by the skill the user picks. */
module HealthWorkers {
  import opened Js

  /** A community health worker. */
  datatype Worker = Worker(
    id: nat, name: string, village: string, union: string, skills: seq<string>,
    contact: string, trainedBy: string, availability: string, experience: string)

  /** The directory, in display order. */
  const Directory: seq<Worker> := [
    Worker(1, "আয়েশা বেগম", "চর কলাপাড়া", "চর কলাপাড়া",
      ["মানসিক স্বাস্থ্য", "প্রসূতি যত্ন", "প্রাথমিক চিকিৎসা"],
      "০১৮১২-৯৮৭৬৫৪", "ব্র্যাক", "সকাল ৯টা - বিকেল ৪টা", "৩ বছর"),
    Worker(2, "রহিম উদ্দিন", "নয়াপাড়া", "চরফ্যাশন",
      ["প্রাথমিক চিকিৎসা", "টীকাকরণ", "স্বাস্থ্য শিক্ষা"],
      "০১৭৩৪-১২৩৪৫৬", "স্বাস্থ্য বিভাগ", "সকাল ১০টা - সন্ধ্যা ৬টা", "৫ বছর"),
    Worker(3, "ফাতেমা খাতুন", "পুরান বাজার", "চরফ্যাশন",
      ["মানসিক স্বাস্থ্য", "নারীর স্বাস্থ্য", "পুষ্টি"],
      "০১৯৫৬-৭৮৯০১২", "আশা", "বিকেল ৩টা - রাত ৮টা", "২ বছর")
  ]

  /** The skill choices offered, `all` first. */
  const Skills: seq<string> :=
    ["all", "মানসিক স্বাস্থ্য", "প্রসূতি যত্ন", "প্রাথমিক চিকিৎসা", "টীকাকরণ", "নারীর স্বাস্থ্য"]

  /** `filteredWorkers` over a list of workers: the whole list for `all`,
      otherwise the workers whose skills include the selected one. */
  function FilterBySkill(workers: seq<Worker>, selectedSkill: string): (r: seq<Worker>)
    ensures selectedSkill == "all" ==> r == workers
    ensures selectedSkill != "all" ==>
      (forall i :: 0 <= i < |r| ==> r[i] in workers && selectedSkill in r[i].skills)
      && (forall i :: 0 <= i < |workers| && selectedSkill in workers[i].skills ==> workers[i] in r)
  {
    if selectedSkill == "all" then workers
    else Filter((w: Worker) => selectedSkill in w.skills, workers)
  }

  /** The filter never reorders: its result is a subsequence of the list. */
  lemma FilterBySkillOrder(workers: seq<Worker>, selectedSkill: string)
    ensures Subsequence(FilterBySkill(workers, selectedSkill), workers)
  {
    if selectedSkill == "all" {
      SubsequenceRefl(workers);
    } else {
      FilterSubsequence((w: Worker) => selectedSkill in w.skills, workers);
    }
  }

  /** The directory as the component shows it for a selected skill. */
  function FilteredWorkers(selectedSkill: string): seq<Worker>
  {
    FilterBySkill(Directory, selectedSkill)
  }

  /** Mental health is offered by the first and the third worker. */
  lemma MentalHealthWorkers()
    ensures FilteredWorkers("মানসিক স্বাস্থ্য") == [Directory[0], Directory[2]]
  {
  }
}
