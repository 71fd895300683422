/**
 * What the goal, job and habit creation sheets share: form strings where an
 * empty string stands for "no value" (`value || null`), and the sheet that
 * closes and reloads its list only after the backend accepted the create.
 */
module SheetForms {
  import opened Base

  /** `value || null` on a string field. */
  function EmptyToNull(s: string): (r: Option<string>)
    ensures r.None? <==> s == []
    ensures r.Some? ==> r.value == s
  {
    if s == [] then None else Some(s)
  }

  /** Nothing is lost: reading a null back as "" restores the field. */
  lemma EmptyToNullRoundTrip(s: string)
    ensures EmptyToNull(s).GetOr("") == s
  {
  }

  /** A sheet's visible state; the form is kept as typed whatever the outcome. */
  datatype Sheet<F> = Sheet(isOpen: bool, form: F)

  /** After `create_*` returns: success closes the sheet and asks for a reload; failure changes nothing. */
  function AfterCreate<F>(s: Sheet<F>, succeeded: bool): (r: (Sheet<F>, bool))
    ensures r.1 == succeeded
    ensures succeeded ==> !r.0.isOpen
    ensures !succeeded ==> r.0 == s
    ensures r.0.form == s.form
  {
    if succeeded then (s.(isOpen := false), true) else (s, false)
  }
}

/** The goal list page: the create payload and the two summary figures. */
module GoalsSheet {
  import opened Base
  import opened Text
  import opened Stats
  import opened SheetForms
  import AppErrors
  import GoalValidation

  datatype GoalForm = GoalForm(goalTitle: string, goalType: string, goalCategory: string, goalDescription: string, goalTargetDate: string)

  const DefaultForm := GoalForm("", "outcome", "career", "", "")

  /** The types the type select offers. */
  const TypeOptions: seq<string> := ["outcome", "process", "performance", "learning"]

  /** The `create_goal` input: title and type as typed, the optional fields null when empty. */
  function Payload(f: GoalForm): (r: GoalValidation.CreateGoalInput)
    ensures r.goalTitle == f.goalTitle && r.goalType == f.goalType
    ensures r.goalCategory == EmptyToNull(f.goalCategory)
    ensures r.goalDescription == EmptyToNull(f.goalDescription)
    ensures r.goalTargetDate == EmptyToNull(f.goalTargetDate)
  {
    GoalValidation.CreateGoalInput(f.goalTitle, f.goalType, EmptyToNull(f.goalCategory), EmptyToNull(f.goalDescription), EmptyToNull(f.goalTargetDate))
  }

  /**
   * The select offers exactly the types the backend accepts, so a form whose
   * type came from the select is rejected only for a blank title.
   */
  lemma SelectableTypesAccepted(f: GoalForm)
    requires f.goalType in TypeOptions
    ensures GoalValidation.ValidateCreateGoal(Payload(f)).Ok? <==> !AllSpace(f.goalTitle)
    ensures forall t :: t in TypeOptions <==> t in GoalValidation.GoalTypes
  {
  }

  /** The default form holds a selectable type, and only its empty title stops it. */
  lemma DefaultFormNeedsTitle()
    ensures DefaultForm.goalType in TypeOptions
    ensures GoalValidation.ValidateCreateGoal(Payload(DefaultForm)) == Base.Err(AppErrors.Validation(GoalValidation.EmptyTitle))
  {
  }

  datatype Goal = Goal(goalId: string, goalStatus: string, progressPercentage: real)

  predicate IsCompleted(g: Goal) {
    g.goalStatus == "completed"
  }

  function Progresses(goals: seq<Goal>): (r: seq<real>)
    ensures |r| == |goals|
    ensures forall k | 0 <= k < |r| :: r[k] == goals[k].progressPercentage
  {
    if goals == [] then [] else [goals[0].progressPercentage] + Progresses(goals[1..])
  }

  /** `completedGoals` and `avgProgress`. */
  datatype GoalFigures = GoalFigures(completedGoals: nat, avgProgress: real)

  function Figures(goals: seq<Goal>): (r: GoalFigures)
    ensures r.completedGoals == Count(goals, IsCompleted) && r.completedGoals <= |goals|
    ensures r.avgProgress == Mean(Progresses(goals))
    ensures goals == [] ==> r == GoalFigures(0, 0.0)
  {
    GoalFigures(Count(goals, IsCompleted), Mean(Progresses(goals)))
  }

  /** With every progress a percentage, the average is one too. */
  lemma AverageIsPercentage(goals: seq<Goal>)
    requires forall k | 0 <= k < |goals| :: 0.0 <= goals[k].progressPercentage <= 100.0
    ensures 0.0 <= Figures(goals).avgProgress <= 100.0
  {
    MeanBounds(Progresses(goals), 0.0, 100.0);
  }

  /** All goals are completed exactly when the completed figure is the list length. */
  lemma AllCompleted(goals: seq<Goal>)
    ensures Figures(goals).completedGoals == |goals| <==> forall k | 0 <= k < |goals| :: IsCompleted(goals[k])
  {
    if Figures(goals).completedGoals == |goals| {
      CountFull(goals, IsCompleted);
    }
    if forall k | 0 <= k < |goals| :: IsCompleted(goals[k]) {
      CountAll(goals, IsCompleted);
    }
  }
}

/** The job application list page: the create payload, the two counters and the location shown. */
module JobsSheet {
  import opened Base
  import opened Text
  import opened Stats
  import opened SheetForms
  import JobValidation

  datatype JobForm = JobForm(jobTitle: string, companyName: string, jobLevel: string, jobEmploymentType: string, jobWorkMode: string, jobPostingUrl: string)

  const DefaultForm := JobForm("", "", "mid", "full_time", "hybrid", "")

  /** The `create_job_application` input: title and company as typed, the optional fields null when empty. */
  function Payload(f: JobForm): (r: JobValidation.CreateJobInput)
    ensures r.jobTitle == f.jobTitle && r.companyName == f.companyName
    ensures r.jobLevel == EmptyToNull(f.jobLevel) && r.jobEmploymentType == EmptyToNull(f.jobEmploymentType)
    ensures r.jobWorkMode == EmptyToNull(f.jobWorkMode) && r.jobPostingUrl == EmptyToNull(f.jobPostingUrl)
  {
    JobValidation.CreateJobInput(f.jobTitle, f.companyName, EmptyToNull(f.jobLevel), EmptyToNull(f.jobEmploymentType), EmptyToNull(f.jobWorkMode), EmptyToNull(f.jobPostingUrl))
  }

  /** Only the title and the company decide whether the backend accepts the form. */
  lemma AcceptedIffNamed(f: JobForm)
    ensures JobValidation.ValidateCreateJob(Payload(f)).Ok? <==> !AllSpace(f.jobTitle) && !AllSpace(f.companyName)
  {
  }

  datatype Job = Job(jobApplicationId: string, jobStatus: string, jobWorkMode: Option<string>, jobLocationText: Option<string>)

  const ActiveStatuses: seq<string> := ["applied", "interviewing", "offer"]

  predicate IsActive(j: Job) {
    j.jobStatus in ActiveStatuses
  }

  predicate IsInterviewing(j: Job) {
    j.jobStatus == "interviewing"
  }

  /** `activeJobs`, `interviewingJobs` and the total tracked. */
  datatype JobFigures = JobFigures(activeJobs: nat, interviewingJobs: nat, totalTracked: nat)

  function Figures(jobs: seq<Job>): (r: JobFigures)
    ensures r.totalTracked == |jobs|
    ensures r.activeJobs == Count(jobs, IsActive) && r.interviewingJobs == Count(jobs, IsInterviewing)
  {
    JobFigures(Count(jobs, IsActive), Count(jobs, IsInterviewing), |jobs|)
  }

  /** Interviewing is an active status, so the figures are ordered. */
  lemma FiguresOrdered(jobs: seq<Job>)
    ensures Figures(jobs).interviewingJobs <= Figures(jobs).activeJobs <= Figures(jobs).totalTracked
  {
    CountMonotone(jobs, IsInterviewing, IsActive);
  }

  /** The location column: the location text, else the work mode, else "Not specified"; empty strings count as missing. */
  function Location(j: Job): (r: string)
    ensures r != []
    ensures j.jobLocationText.Some? && j.jobLocationText.value != [] ==> r == j.jobLocationText.value
    ensures (j.jobLocationText.None? || j.jobLocationText.value == []) && j.jobWorkMode.Some? && j.jobWorkMode.value != [] ==> r == j.jobWorkMode.value
  {
    if j.jobLocationText.Some? && j.jobLocationText.value != [] then j.jobLocationText.value
    else if j.jobWorkMode.Some? && j.jobWorkMode.value != [] then j.jobWorkMode.value
    else "Not specified"
  }

  /** "Not specified" is shown exactly when neither field has text. */
  lemma NotSpecifiedOnlyWhenMissing(j: Job)
    requires j.jobLocationText != Some("Not specified") && j.jobWorkMode != Some("Not specified")
    ensures Location(j) == "Not specified" <==> j.jobLocationText.GetOr("") == [] && j.jobWorkMode.GetOr("") == []
  {
  }
}

/** The habit list page: form defaults, the create payload and the icon shown. */
module HabitsSheet {
  import opened Base
  import opened Text
  import opened SheetForms
  import HabitValidation

  datatype HabitForm = HabitForm(habitName: string, habitType: string, habitDescription: string, habitIconEmoji: string, habitColor: string, scheduleType: string)

  const Sparkles := "✨"

  const DefaultForm := HabitForm("", "boolean", "", Sparkles, "#3b82f6", "daily")

  const TypeOptions: seq<string> := ["boolean", "quantitative", "duration", "checklist"]

  /** The `create_habit` input: name, type and schedule as typed, the optional fields null when empty. */
  function Payload(f: HabitForm): (r: HabitValidation.CreateHabitInput)
    ensures r.habitName == f.habitName && r.habitType == f.habitType && r.scheduleType == f.scheduleType
    ensures r.habitDescription == EmptyToNull(f.habitDescription)
    ensures r.habitIconEmoji == EmptyToNull(f.habitIconEmoji) && r.habitColor == EmptyToNull(f.habitColor)
  {
    HabitValidation.CreateHabitInput(f.habitName, f.habitType, EmptyToNull(f.habitDescription), EmptyToNull(f.habitIconEmoji), EmptyToNull(f.habitColor), f.scheduleType)
  }

  /** The select offers exactly the backend's types, so only a blank name rejects a selected type. */
  lemma SelectableTypesAccepted(f: HabitForm)
    requires f.habitType in TypeOptions
    ensures HabitValidation.ValidateCreateHabit(Payload(f)).Ok? <==> !AllSpace(f.habitName)
    ensures forall t :: t in TypeOptions <==> t in HabitValidation.HabitTypes
  {
  }

  /** The defaults: a boolean daily habit whose icon and colour are sent, not null. */
  lemma DefaultsSent()
    ensures DefaultForm.habitType in TypeOptions && DefaultForm.scheduleType == "daily"
    ensures Payload(DefaultForm).habitIconEmoji == Some(Sparkles) && Payload(DefaultForm).habitColor.Some?
    ensures Payload(DefaultForm).habitDescription.None?
  {
  }

  /** The icon shown for a habit: its emoji, or the sparkles when it has none. */
  function ShownIcon(emoji: Option<string>): (r: string)
    ensures r != []
    ensures emoji.Some? && emoji.value != [] ==> r == emoji.value
  {
    if emoji.Some? && emoji.value != [] then emoji.value else Sparkles
  }

  /** A habit created from the default form shows the same icon as one sent without any. */
  lemma DefaultIconMatchesFallback()
    ensures ShownIcon(Payload(DefaultForm).habitIconEmoji) == ShownIcon(None)
  {
  }
}
