/**
 * The expressions `insert_goal` and `insert_job_application` evaluate before
 * their `INSERT`: the slug, the timestamps and the creation date; and the
 * `NotFound` error of the fetch by id. The table is a map from id to row.
 * UUIDs, the clock and the local date are parameters.
 */

/** Slug text shared by goals and job applications. */
module Slugs {
  import opened Text

  /** `s.to_lowercase().replace(" ", "-")`. */
  function Dashed(s: string): (r: string)
    ensures |r| == |s|
    ensures ' ' !in r
    ensures forall k | 0 <= k < |s| :: s[k] != ' ' ==> r[k] == LowerChar(s[k])
  {
    ReplaceChar(ToLower(s), ' ', '-')
  }

  /** Only the space character is replaced: a tab, like any other non-letter, is kept. */
  lemma DashedKeepsTabs(s: string, k: int)
    requires 0 <= k < |s| && s[k] == '\t'
    ensures Dashed(s)[k] == '\t'
  {
  }

  /** Lower-casing and dashing once more changes nothing. */
  lemma DashedIdempotent(s: string)
    ensures Dashed(Dashed(s)) == Dashed(s)
  {
  }

  /** The first eight characters of a UUID's text form. */
  function ShortUuid(uuid: string): (r: string)
    requires |uuid| >= 8
    ensures |r| == 8
  {
    uuid[..8]
  }
}

module GoalRepository {
  import opened Base
  import opened Text
  import opened AppErrors
  import opened Slugs
  import opened GoalValidation

  datatype GoalRow = GoalRow(
    goalId: string,
    goalSlug: string,
    goalTitle: string,
    goalType: string,
    goalCategory: Option<string>,
    goalDescription: Option<string>,
    goalTargetDate: Option<string>,
    goalCreatedDate: string,
    createdAt: int,
    updatedAt: int)

  /** `format!("{}-{}", title.to_lowercase().replace(" ", "-"), uuid[..8])`. */
  function GoalSlug(title: string, uuid: string): (slug: string)
    requires |uuid| >= 8
    ensures |slug| == |title| + 9
    ensures slug[..|title|] == Dashed(title) && slug[|title|] == '-' && slug[|title| + 1..] == uuid[..8]
    ensures ' ' !in uuid[..8] ==> ' ' !in slug
  {
    Dashed(title) + "-" + ShortUuid(uuid)
  }

  /**
   * The row `insert_goal` writes: the input fields unchanged, a slug from
   * the title and a second UUID, today's local date, and one timestamp for
   * both `created_at` and `updated_at`.
   */
  function InsertedGoal(input: CreateGoalInput, id: string, slugUuid: string, nowTs: int, today: string): (r: GoalRow)
    requires |slugUuid| >= 8
    ensures r.goalId == id && r.goalSlug == GoalSlug(input.goalTitle, slugUuid)
    ensures r.goalTitle == input.goalTitle && r.goalType == input.goalType
    ensures r.goalCategory == input.goalCategory && r.goalDescription == input.goalDescription && r.goalTargetDate == input.goalTargetDate
    ensures r.goalCreatedDate == today
    ensures r.createdAt == r.updatedAt == nowTs
  {
    GoalRow(id, GoalSlug(input.goalTitle, slugUuid), input.goalTitle, input.goalType, input.goalCategory,
            input.goalDescription, input.goalTargetDate, today, nowTs, nowTs)
  }

  function NotFoundMessage(id: string): string {
    "Goal " + id + " not found"
  }

  /** `fetch_goal`: the row with that id, or `NotFound` naming the id. */
  function FetchGoal(table: map<string, GoalRow>, id: string): (r: Result<GoalRow, AppError>)
    ensures r.Ok? <==> id in table
    ensures r.Ok? ==> r.value == table[id]
    ensures r.Err? ==> r.error.NotFound? && Contains(r.error.message, id)
  {
    if id in table then Ok(table[id])
    else
      ContainsSelf(id);
      ContainsInfix("Goal ", id, " not found", id);
      Err(NotFound(NotFoundMessage(id)))
  }

  /** A goal that was inserted is fetched back unchanged by its id. */
  lemma InsertThenFetch(table: map<string, GoalRow>, input: CreateGoalInput, id: string, slugUuid: string, nowTs: int, today: string)
    requires |slugUuid| >= 8
    ensures FetchGoal(table[id := InsertedGoal(input, id, slugUuid, nowTs, today)], id) == Ok(InsertedGoal(input, id, slugUuid, nowTs, today))
  {
  }
}

module JobRepository {
  import opened Base
  import opened Text
  import opened AppErrors
  import opened Slugs
  import opened JobValidation

  datatype JobRow = JobRow(
    jobApplicationId: string,
    jobApplicationSlug: string,
    jobTitle: string,
    companyName: string,
    jobLevel: Option<string>,
    jobEmploymentType: Option<string>,
    jobWorkMode: Option<string>,
    jobPostingUrl: Option<string>,
    applicationCreatedDate: string,
    createdAt: int,
    updatedAt: int)

  /** `format!("{}-{}-{}", company dashed, title dashed, uuid[..8])`. */
  function JobSlug(company: string, title: string, uuid: string): (slug: string)
    requires |uuid| >= 8
    ensures |slug| == |company| + |title| + 10
    ensures slug[..|company|] == Dashed(company) && slug[|company|] == '-'
    ensures slug[|company| + 1..|company| + 1 + |title|] == Dashed(title)
    ensures slug[|slug| - 9] == '-' && slug[|slug| - 8..] == uuid[..8]
    ensures ' ' !in uuid[..8] ==> ' ' !in slug
  {
    Dashed(company) + "-" + Dashed(title) + "-" + ShortUuid(uuid)
  }

  /** The row `insert_job_application` writes. */
  function InsertedJob(input: CreateJobInput, id: string, slugUuid: string, nowTs: int, today: string): (r: JobRow)
    requires |slugUuid| >= 8
    ensures r.jobApplicationId == id && r.jobApplicationSlug == JobSlug(input.companyName, input.jobTitle, slugUuid)
    ensures r.jobTitle == input.jobTitle && r.companyName == input.companyName
    ensures r.jobLevel == input.jobLevel && r.jobEmploymentType == input.jobEmploymentType
    ensures r.jobWorkMode == input.jobWorkMode && r.jobPostingUrl == input.jobPostingUrl
    ensures r.applicationCreatedDate == today
    ensures r.createdAt == r.updatedAt == nowTs
  {
    JobRow(id, JobSlug(input.companyName, input.jobTitle, slugUuid), input.jobTitle, input.companyName,
           input.jobLevel, input.jobEmploymentType, input.jobWorkMode, input.jobPostingUrl, today, nowTs, nowTs)
  }

  function NotFoundMessage(id: string): string {
    "Job application " + id + " not found"
  }

  /** `fetch_job_application`: the row with that id, or `NotFound` naming the id. */
  function FetchJobApplication(table: map<string, JobRow>, id: string): (r: Result<JobRow, AppError>)
    ensures r.Ok? <==> id in table
    ensures r.Ok? ==> r.value == table[id]
    ensures r.Err? ==> r.error.NotFound? && Contains(r.error.message, id)
  {
    if id in table then Ok(table[id])
    else
      ContainsSelf(id);
      ContainsInfix("Job application ", id, " not found", id);
      Err(NotFound(NotFoundMessage(id)))
  }

  /** An application that was inserted is fetched back unchanged by its id. */
  lemma InsertThenFetch(table: map<string, JobRow>, input: CreateJobInput, id: string, slugUuid: string, nowTs: int, today: string)
    requires |slugUuid| >= 8
    ensures FetchJobApplication(table[id := InsertedJob(input, id, slugUuid, nowTs, today)], id) == Ok(InsertedJob(input, id, slugUuid, nowTs, today))
  {
  }
}
