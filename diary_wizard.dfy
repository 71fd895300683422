/**
 * The project's diary page: the five-step wizard that creates a primary
 * diary page. The four wellbeing sliders of step 3 are shown without a
 * change handler, so they keep their initial 0 and are not part of the
 * editable draft here; the insert sends them as 0.
 */
module DiaryWizard {
  import opened Text
  import opened CommaLists
  import opened Wizards

  const LastStep := 5

  /** The editable draft. */
  datatype DiaryDraft = DiaryDraft(
    title: string,
    entryDate: string,
    iconEmoji: string,
    colorLabel: string,
    semanticType: string,
    intentType: string,
    tagIds: string,
    primaryCategory: string,
    secondaryCategories: string,
    importanceLevel: string,
    confidenceLevel: real,
    weatherType: string,
    locationText: string,
    socialContext: string,
    linkedHabitIds: string,
    linkedGoalIds: string,
    linkedTaskIds: string,
    linkedJobIds: string,
    dateLocked: int,
    isArchived: int,
    isCountedForStreak: int)

  /** The draft the page starts with and returns to after a create; `today` is the ISO date. */
  function DefaultDraft(today: string): (r: DiaryDraft)
    ensures r.entryDate == today && r.importanceLevel == "normal" && r.isCountedForStreak == 1
    ensures r.title == "" && r.secondaryCategories == "" && r.tagIds == ""
  {
    DiaryDraft("", today, "📝", "", "", "", "", "", "", "normal", 0.5, "", "", "", "", "", "", "", 0, 0, 1)
  }

  /** The row inserted into `diary_entries`. */
  datatype DiaryInsert = DiaryInsert(
    entryDate: string,
    isPrimaryPage: int,
    title: string,
    iconEmoji: string,
    colorLabel: string,
    semanticType: string,
    intentType: string,
    primaryCategory: string,
    secondaryCategories: seq<string>,
    importanceLevel: string,
    confidenceLevel: real,
    moodRating: real,
    energyLevel: real,
    stressLevel: real,
    sleepQuality: real,
    weatherType: string,
    locationText: string,
    socialContext: string,
    linkedHabitIds: seq<string>,
    linkedGoalIds: seq<string>,
    linkedTaskIds: seq<string>,
    linkedJobIds: seq<string>,
    dateLocked: int,
    isArchived: int,
    isCountedForStreak: int,
    isEmptyEntry: int,
    lengthCategory: string)

  /**
   * `secondary_categories.split(',').map((c) => c.trim())`, applied without
   * the empty-string guard the id lists have: it agrees with `ParseList` on
   * every non-empty string, and turns "" into one empty category.
   */
  function SplitCategories(s: string): (r: seq<string>)
    ensures s != [] ==> r == ParseList(s)
    ensures s == [] ==> r == [""]
    ensures |r| == CountChar(s, ',') + 1
  {
    TrimAll(SplitOn(s, ','))
  }

  /**
   * The insert `handleSubmit` sends: a primary page, empty, of length
   * category `empty`, with the sliders at 0, the id lists parsed and the
   * secondary categories split.
   */
  function Payload(d: DiaryDraft): (r: DiaryInsert)
    ensures r.isPrimaryPage == 1 && r.isEmptyEntry == 1 && r.lengthCategory == "empty"
    ensures r.moodRating == 0.0 && r.energyLevel == 0.0 && r.stressLevel == 0.0 && r.sleepQuality == 0.0
    ensures r.linkedHabitIds == ParseList(d.linkedHabitIds) && r.linkedGoalIds == ParseList(d.linkedGoalIds)
    ensures r.linkedTaskIds == ParseList(d.linkedTaskIds) && r.linkedJobIds == ParseList(d.linkedJobIds)
    ensures r.secondaryCategories == SplitCategories(d.secondaryCategories)
    ensures r.entryDate == d.entryDate && r.title == d.title
  {
    DiaryInsert(d.entryDate, 1, d.title, d.iconEmoji, d.colorLabel, d.semanticType, d.intentType, d.primaryCategory,
                SplitCategories(d.secondaryCategories), d.importanceLevel, d.confidenceLevel, 0.0, 0.0, 0.0, 0.0,
                d.weatherType, d.locationText, d.socialContext, ParseList(d.linkedHabitIds), ParseList(d.linkedGoalIds),
                ParseList(d.linkedTaskIds), ParseList(d.linkedJobIds), d.dateLocked, d.isArchived, d.isCountedForStreak,
                1, "empty")
  }

  /** The tags are parsed but never sent: whatever the tag field holds, the insert is the same. */
  lemma TagsNotSent(d: DiaryDraft, tags: string)
    ensures Payload(d.(tagIds := tags)) == Payload(d)
  {
  }

  /** From the default draft, an empty id field sends no ids, but the empty category field sends one blank category. */
  lemma DefaultDraftPayload(today: string)
    ensures Payload(DefaultDraft(today)).linkedHabitIds == []
    ensures Payload(DefaultDraft(today)).secondaryCategories == [""]
  {
  }

  /**
   * `handleSubmit`: sends the insert built from the draft; on success the
   * drawer closes, the step returns to 1 and the draft is reset; on failure
   * nothing changes. No analytics event is written.
   */
  method Submit(w: Wizard<DiaryDraft>, succeeded: bool, today: string) returns (sent: DiaryInsert)
    requires w.Valid() && w.lastStep == LastStep
    modifies w
    ensures w.Valid()
    ensures sent == Payload(old(w.formData))
    ensures succeeded ==> !w.isDrawerOpen && w.currentStep == 1 && w.formData == DefaultDraft(today)
    ensures !succeeded ==> w.isDrawerOpen == old(w.isDrawerOpen) && w.currentStep == old(w.currentStep) && w.formData == old(w.formData)
  {
    sent := Payload(w.formData);
    w.Finish(succeeded, DefaultDraft(today));
  }
}
