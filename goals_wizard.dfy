/**
 * The project's goal page: the seven-step creation wizard, the insert it
 * sends, and the summary figures over the loaded goals. Today's ISO date,
 * the default start date, is the parameter `today`.
 */
module GoalsWizard {
  import opened Base
  import opened Stats
  import opened CommaLists
  import opened Wizards

  const LastStep := 7

  datatype GoalDraft = GoalDraft(
    goalTitle: string,
    goalDescription: string,
    goalCategory: string,
    goalIconEmoji: string,
    goalColor: string,
    goalPriorityLevel: string,
    goalStartDate: string,
    goalTargetDate: string,
    successMetricType: string,
    targetValue: real,
    successMetricUnit: string,
    milestoneIds: string,
    milestoneRequiredOrder: int,
    milestoneWeightDistribution: string,
    prerequisiteGoalIds: string,
    unlocksGoalIds: string,
    unlockConditionType: string,
    unlockThresholdValue: real,
    linkedHabitIds: string,
    habitContributionWeights: string,
    linkedTaskIds: string,
    motivationReason: string,
    rewardType: string,
    rewardValue: real,
    punishmentType: string,
    goalReviewFrequency: string,
    notificationEnabled: int,
    displayHidden: int)

  /** The draft the page starts with and returns to after a create. */
  function DefaultDraft(today: string): GoalDraft {
    GoalDraft("", "", "", "🎯", "#3b82f6", "medium", today, "", "numeric", 0.0, "", "", 0, "", "", "",
              "completion", 1.0, "", "", "", "", "", 0.0, "", "weekly", 1, 0)
  }

  /** The row inserted into `goals`. */
  datatype GoalInsert = GoalInsert(
    goalTitle: string,
    goalDescription: string,
    goalCategory: string,
    goalIconEmoji: string,
    goalColor: string,
    goalPriorityLevel: string,
    goalStartDate: string,
    goalTargetDate: string,
    successMetricType: string,
    targetValue: real,
    successMetricUnit: string,
    blockedByGoalIds: seq<string>,
    unlocksGoalIds: seq<string>,
    unlockConditionType: string,
    unlockThresholdValue: real,
    linkedHabitIds: seq<string>,
    linkedTaskIds: seq<string>,
    motivationReason: string,
    rewardType: string,
    rewardValue: real,
    punishmentType: string,
    goalReviewFrequency: string,
    notificationEnabled: int,
    displayHidden: int,
    goalStatus: string,
    progressPercentage: real)

  /**
   * The insert `handleSubmit` sends: the prerequisites go out as the
   * blocking goals, the four id fields as parsed lists, every new goal is
   * not started at 0 %, and the milestone and contribution-weight fields are
   * not sent.
   */
  function Payload(d: GoalDraft): (r: GoalInsert)
    ensures r.blockedByGoalIds == ParseList(d.prerequisiteGoalIds)
    ensures r.unlocksGoalIds == ParseList(d.unlocksGoalIds)
    ensures r.linkedHabitIds == ParseList(d.linkedHabitIds) && r.linkedTaskIds == ParseList(d.linkedTaskIds)
    ensures r.goalStatus == "not_started" && r.progressPercentage == 0.0
    ensures r.goalTitle == d.goalTitle && r.goalTargetDate == d.goalTargetDate
  {
    GoalInsert(d.goalTitle, d.goalDescription, d.goalCategory, d.goalIconEmoji, d.goalColor, d.goalPriorityLevel,
               d.goalStartDate, d.goalTargetDate, d.successMetricType, d.targetValue, d.successMetricUnit,
               ParseList(d.prerequisiteGoalIds), ParseList(d.unlocksGoalIds), d.unlockConditionType,
               d.unlockThresholdValue, ParseList(d.linkedHabitIds), ParseList(d.linkedTaskIds), d.motivationReason,
               d.rewardType, d.rewardValue, d.punishmentType, d.goalReviewFrequency, d.notificationEnabled,
               d.displayHidden, "not_started", 0.0)
  }

  /** Whatever the milestone fields and the contribution weights hold, the insert is the same. */
  lemma UnsentFieldsIgnored(d: GoalDraft, ids: string, order: int, weights: string, contributions: string)
    ensures Payload(d.(milestoneIds := ids, milestoneRequiredOrder := order, milestoneWeightDistribution := weights, habitContributionWeights := contributions)) == Payload(d)
  {
  }

  /** A goal with no prerequisites typed has no blocking goals; each comma adds one. */
  lemma PrerequisiteCount(d: GoalDraft)
    ensures d.prerequisiteGoalIds == [] ==> Payload(d).blockedByGoalIds == []
    ensures d.prerequisiteGoalIds != [] ==> |Payload(d).blockedByGoalIds| == Text.CountChar(d.prerequisiteGoalIds, ',') + 1
  {
  }

  const GoalCreated := AnalyticsEvent("goal_created", "create", "goal_count", 1.0)

  /**
   * `handleSubmit`: sends the insert built from the draft; on success the
   * wizard closes, returns to step 1 with the default draft, and a
   * `goal_created` event is written. On failure nothing changes.
   */
  method Submit(w: Wizard<GoalDraft>, succeeded: bool, today: string) returns (sent: GoalInsert, event: Option<AnalyticsEvent>)
    requires w.Valid() && w.lastStep == LastStep
    modifies w
    ensures w.Valid()
    ensures sent == Payload(old(w.formData))
    ensures event == (if succeeded then Some(GoalCreated) else None)
    ensures succeeded ==> !w.isDrawerOpen && w.currentStep == 1 && w.formData == DefaultDraft(today)
    ensures !succeeded ==> w.isDrawerOpen == old(w.isDrawerOpen) && w.currentStep == old(w.currentStep) && w.formData == old(w.formData)
  {
    sent := Payload(w.formData);
    w.Finish(succeeded, DefaultDraft(today));
    event := if succeeded then Some(GoalCreated) else None;
  }

  /** A loaded goal; a missing progress is `None`. */
  datatype Goal = Goal(goalId: string, goalStatus: string, progressPercentage: Option<real>)

  predicate IsCompleted(g: Goal) {
    g.goalStatus == "completed"
  }

  /** `g.progress_percentage || 0`. */
  function ProgressOf(g: Goal): real {
    if g.progressPercentage.Some? then g.progressPercentage.value else 0.0
  }

  function Progresses(goals: seq<Goal>): (r: seq<real>)
    ensures |r| == |goals|
    ensures forall k | 0 <= k < |r| :: r[k] == ProgressOf(goals[k])
  {
    if goals == [] then [] else [ProgressOf(goals[0])] + Progresses(goals[1..])
  }

  datatype GoalStats = GoalStats(totalGoals: nat, completedGoals: nat, avgProgress: real)

  /** The summary cards: how many goals, how many completed, and the mean progress (0 for no goals). */
  function Summary(goals: seq<Goal>): (r: GoalStats)
    ensures r.totalGoals == |goals| && r.completedGoals <= r.totalGoals
    ensures r.completedGoals == Count(goals, IsCompleted) && r.avgProgress == Mean(Progresses(goals))
    ensures goals == [] ==> r.avgProgress == 0.0
  {
    GoalStats(|goals|, Count(goals, IsCompleted), Mean(Progresses(goals)))
  }

  /** With every recorded progress a percentage, the mean is one too; missing ones pull it towards 0. */
  lemma AverageIsPercentage(goals: seq<Goal>)
    requires forall k | 0 <= k < |goals| :: goals[k].progressPercentage.Some? ==> 0.0 <= goals[k].progressPercentage.value <= 100.0
    ensures 0.0 <= Summary(goals).avgProgress <= 100.0
  {
    MeanBounds(Progresses(goals), 0.0, 100.0);
  }
}
