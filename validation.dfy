/**
 * Input validation of the backend commands. Each validator runs its checks
 * in a fixed order and returns the first failure as a `Validation` error
 * with a fixed text.
 */

/**
 * Diary entry dates. Date parsing (`%Y-%m-%d`) belongs to a library outside
 * the model: it is the parameter `parse`, which yields `None` for a string
 * that does not parse. The current UTC date is the parameter `today`.
 */
module DiaryValidation {
  import opened Base
  import opened Dates
  import opened AppErrors

  const FirstYear := 2026
  const InvalidDateFormat := "Invalid date format. Expected YYYY-MM-DD."
  const BeforeFirstYear := "Diary entries must start from 2026 onwards."
  const FutureLocked := "Future dates are currently locked for new entries."
  const EmptyContent := "Content cannot be empty."
  const InvalidEntryDate := "Invalid entry date format."
  const FutureNotModifiable := "Future entries cannot be modified."

  datatype CreateDiaryInput = CreateDiaryInput(entryDate: string, contentJson: string, title: Option<string>)

  /** The checks on a date that must hold before content is looked at. */
  predicate DateAccepted(parsed: Option<Date>, today: Date) {
    parsed.Some? && parsed.value.year >= FirstYear && LessEq(parsed.value, today)
  }

  /**
   * `validate_create`: the date must parse, lie in 2026 or later and not
   * after today, and the content must be non-empty, checked in that order.
   */
  function ValidateCreate(input: CreateDiaryInput, parse: string -> Option<Date>, today: Date): (r: Result<Unit, AppError>)
    ensures r.Ok? <==> DateAccepted(parse(input.entryDate), today) && |input.contentJson| > 0
    ensures r.Err? ==> r.error.Validation?
    ensures parse(input.entryDate).None? ==> r == Err(Validation(InvalidDateFormat))
    ensures parse(input.entryDate).Some? && parse(input.entryDate).value.year < FirstYear ==> r == Err(Validation(BeforeFirstYear))
    ensures (parse(input.entryDate).Some? && parse(input.entryDate).value.year >= FirstYear && Less(today, parse(input.entryDate).value)) ==> r == Err(Validation(FutureLocked))
    ensures r == Err(Validation(EmptyContent)) <==> DateAccepted(parse(input.entryDate), today) && |input.contentJson| == 0
  {
    match parse(input.entryDate)
    case None => Err(Validation(InvalidDateFormat))
    case Some(date) =>
      if date.year < FirstYear then Err(Validation(BeforeFirstYear))
      else if Less(today, date) then Err(Validation(FutureLocked))
      else if |input.contentJson| == 0 then Err(Validation(EmptyContent))
      else Ok(Unit)
  }

  /** `validate_update`: the date must parse and not lie after today; any year is allowed. */
  function ValidateUpdate(entryDate: string, parse: string -> Option<Date>, today: Date): (r: Result<Unit, AppError>)
    ensures r.Ok? <==> parse(entryDate).Some? && LessEq(parse(entryDate).value, today)
    ensures parse(entryDate).None? ==> r == Err(Validation(InvalidEntryDate))
    ensures parse(entryDate).Some? && Less(today, parse(entryDate).value) ==> r == Err(Validation(FutureNotModifiable))
  {
    match parse(entryDate)
    case None => Err(Validation(InvalidEntryDate))
    case Some(date) =>
      if Less(today, date) then Err(Validation(FutureNotModifiable)) else Ok(Unit)
  }

  /**
   * An entry that may be created may also be updated; the converse fails for
   * any date before 2026 that is not in the future.
   */
  lemma UpdateAcceptsMore(input: CreateDiaryInput, parse: string -> Option<Date>, today: Date)
    ensures ValidateCreate(input, parse, today).Ok? ==> ValidateUpdate(input.entryDate, parse, today).Ok?
    ensures (parse(input.entryDate).Some? && parse(input.entryDate).value.year < FirstYear && LessEq(parse(input.entryDate).value, today)) ==> ValidateCreate(input, parse, today).Err? && ValidateUpdate(input.entryDate, parse, today).Ok?
  {
  }

  /** Today itself is never rejected as a future date. */
  lemma TodayIsNotFuture(input: CreateDiaryInput, parse: string -> Option<Date>, today: Date)
    requires parse(input.entryDate) == Some(today) && today.year >= FirstYear
    ensures ValidateCreate(input, parse, today) == (if |input.contentJson| == 0 then Err(Validation(EmptyContent)) else Ok(Unit))
    ensures ValidateUpdate(input.entryDate, parse, today).Ok?
  {
  }
}

/** Habit creation: the name must not be blank and the type must be one of four. */
module HabitValidation {
  import opened Base
  import opened Text
  import opened AppErrors

  const HabitTypes: seq<string> := ["boolean", "quantitative", "duration", "checklist"]
  const EmptyName := "Habit name cannot be empty."

  datatype CreateHabitInput = CreateHabitInput(
    habitName: string,
    habitType: string,
    habitDescription: Option<string>,
    habitIconEmoji: Option<string>,
    habitColor: Option<string>,
    scheduleType: string)

  /** The message for a rejected type, with the allowed types in their debug rendering. */
  function InvalidType(habitType: string): string {
    "Invalid habit type: " + habitType + ". Must be one of [\"boolean\", \"quantitative\", \"duration\", \"checklist\"]"
  }

  /** `validate_create_habit`. Only the name and the type are inspected. */
  function ValidateCreateHabit(input: CreateHabitInput): (r: Result<Unit, AppError>)
    ensures r.Ok? <==> !AllSpace(input.habitName) && input.habitType in HabitTypes
    ensures AllSpace(input.habitName) ==> r == Err(Validation(EmptyName))
    ensures !AllSpace(input.habitName) && input.habitType !in HabitTypes ==> r == Err(Validation(InvalidType(input.habitType)))
  {
    if Trim(input.habitName) == [] then Err(Validation(EmptyName))
    else if input.habitType !in HabitTypes then Err(Validation(InvalidType(input.habitType)))
    else Ok(Unit)
  }

  /** Whitespace around a name that has content does not make it blank. */
  lemma {:induction false} PaddedNameAccepted(name: string, pre: string, post: string)
    requires !AllSpace(name)
    ensures !AllSpace(pre + name + post)
  {
    var k :| 0 <= k < |name| && !IsSpace(name[k]);
    assert (pre + name + post)[|pre| + k] == name[k];
  }
}

/** Goal creation: the title must not be blank and the type must be one of four. */
module GoalValidation {
  import opened Base
  import opened Text
  import opened AppErrors

  const GoalTypes: seq<string> := ["outcome", "process", "performance", "learning"]
  const EmptyTitle := "Goal title cannot be empty."

  datatype CreateGoalInput = CreateGoalInput(
    goalTitle: string,
    goalType: string,
    goalCategory: Option<string>,
    goalDescription: Option<string>,
    goalTargetDate: Option<string>)

  function InvalidType(goalType: string): string {
    "Invalid goal type: " + goalType + ". Must be one of [\"outcome\", \"process\", \"performance\", \"learning\"]"
  }

  /** `validate_create_goal`. Category, description and target date are never inspected. */
  function ValidateCreateGoal(input: CreateGoalInput): (r: Result<Unit, AppError>)
    ensures r.Ok? <==> !AllSpace(input.goalTitle) && input.goalType in GoalTypes
    ensures AllSpace(input.goalTitle) ==> r == Err(Validation(EmptyTitle))
    ensures !AllSpace(input.goalTitle) && input.goalType !in GoalTypes ==> r == Err(Validation(InvalidType(input.goalType)))
  {
    if Trim(input.goalTitle) == [] then Err(Validation(EmptyTitle))
    else if input.goalType !in GoalTypes then Err(Validation(InvalidType(input.goalType)))
    else Ok(Unit)
  }
}

/** Job application creation: title and company must not be blank. */
module JobValidation {
  import opened Base
  import opened Text
  import opened AppErrors

  const EmptyTitle := "Job title cannot be empty."
  const EmptyCompany := "Company name cannot be empty."

  datatype CreateJobInput = CreateJobInput(
    jobTitle: string,
    companyName: string,
    jobLevel: Option<string>,
    jobEmploymentType: Option<string>,
    jobWorkMode: Option<string>,
    jobPostingUrl: Option<string>)

  /** `validate_create_job`: the title is checked before the company; nothing else is constrained. */
  function ValidateCreateJob(input: CreateJobInput): (r: Result<Unit, AppError>)
    ensures r.Ok? <==> !AllSpace(input.jobTitle) && !AllSpace(input.companyName)
    ensures AllSpace(input.jobTitle) ==> r == Err(Validation(EmptyTitle))
    ensures !AllSpace(input.jobTitle) && AllSpace(input.companyName) ==> r == Err(Validation(EmptyCompany))
  {
    if Trim(input.jobTitle) == [] then Err(Validation(EmptyTitle))
    else if Trim(input.companyName) == [] then Err(Validation(EmptyCompany))
    else Ok(Unit)
  }
}
