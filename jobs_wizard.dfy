/**
 * The project's career pipeline page: the five-step application wizard,
 * which inserts its draft unchanged, and the four status cards and the
 * status badge over the loaded applications. The numeric flags hold 0 or 1
 * when set through the form; JavaScript truthiness of a number is `!= 0`.
 */
module JobsWizard {
  import opened Base
  import opened Stats
  import opened Wizards

  const LastStep := 5

  /** The draft, which is also the inserted row. */
  datatype ApplicationForm = ApplicationForm(
    companyName: string,
    companyIndustry: string,
    companySize: string,
    roleTitle: string,
    roleLevel: string,
    roleType: string,
    roleLocation: string,
    remotePolicy: string,
    compensationBand: string,
    currency: string,
    applicationDate: string,
    applicationChannel: string,
    applicationSource: string,
    referralUsed: int,
    resumeVersionId: string,
    coverLetterVersionId: string,
    portfolioVersionId: string,
    screeningCompleted: int,
    interviewRoundsPlanned: int,
    interviewRoundsCompleted: int,
    offerReceived: int,
    offerDetails: string,
    decisionDeadline: string,
    decisionMade: int,
    rejectionReceived: int,
    rejectionReason: string,
    feedbackReceived: string,
    lessonsLearned: string,
    emotionalImpact: string,
    careerAlignmentScore: real,
    status: string)

  /** The draft the page starts with and returns to after a create; `today` is the ISO date. */
  function DefaultForm(today: string): (r: ApplicationForm)
    ensures r.status == "applied" && r.offerReceived == 0 && r.rejectionReceived == 0
    ensures r.applicationDate == today && r.currency == "USD" && r.careerAlignmentScore == 0.5
  {
    ApplicationForm("", "", "", "", "", "", "", "", "", "USD", today, "", "", 0, "", "", "", 0, 0, 0, 0, "", "", 0, 0,
                    "", "", "", "", 0.5, "applied")
  }

  const ApplicationCreated := AnalyticsEvent("application_created", "create", "application_count", 1.0)

  /**
   * `handleSubmit`: the draft is inserted as it stands; on success the
   * drawer closes, the step returns to 1, the draft is reset and an
   * `application_created` event is written. On failure nothing changes.
   */
  method Submit(w: Wizard<ApplicationForm>, succeeded: bool, today: string) returns (sent: ApplicationForm, event: Option<AnalyticsEvent>)
    requires w.Valid() && w.lastStep == LastStep
    modifies w
    ensures w.Valid()
    ensures sent == old(w.formData)
    ensures event == (if succeeded then Some(ApplicationCreated) else None)
    ensures succeeded ==> !w.isDrawerOpen && w.currentStep == 1 && w.formData == DefaultForm(today)
    ensures !succeeded ==> w.isDrawerOpen == old(w.isDrawerOpen) && w.currentStep == old(w.currentStep) && w.formData == old(w.formData)
  {
    sent := w.formData;
    w.Finish(succeeded, DefaultForm(today));
    event := if succeeded then Some(ApplicationCreated) else None;
  }

  /** A loaded application, with the fields the page reads. */
  datatype Application = Application(
    applicationId: string,
    companyName: string,
    roleTitle: string,
    status: string,
    applicationDate: string,
    offerReceived: int,
    rejectionReceived: int)

  /** Applied: status `applied` and neither an offer nor a rejection recorded (by truthiness). */
  predicate IsApplied(a: Application) {
    a.status == "applied" && a.offerReceived == 0 && a.rejectionReceived == 0
  }

  predicate IsInterviewing(a: Application) {
    a.status == "interviewing"
  }

  /** Offered and rejected compare the flag with 1 exactly. */
  predicate IsOffered(a: Application) {
    a.offerReceived == 1
  }

  predicate IsRejected(a: Application) {
    a.rejectionReceived == 1
  }

  datatype StatusGroups = StatusGroups(applied: seq<Application>, interviewing: seq<Application>, offered: seq<Application>, rejected: seq<Application>)

  /** `statusGroups`: four filters of the loaded list, each keeping the list's order. */
  function Groups(apps: seq<Application>): (r: StatusGroups)
    ensures forall a :: a in r.applied <==> a in apps && IsApplied(a)
    ensures forall a :: a in r.interviewing <==> a in apps && IsInterviewing(a)
    ensures forall a :: a in r.offered <==> a in apps && IsOffered(a)
    ensures forall a :: a in r.rejected <==> a in apps && IsRejected(a)
    ensures |r.applied| == Count(apps, IsApplied) && |r.offered| == Count(apps, IsOffered)
  {
    FilterIsSubsequence(apps, IsApplied);
    FilterIsSubsequence(apps, IsOffered);
    StatusGroups(Filter(apps, IsApplied), Filter(apps, IsInterviewing), Filter(apps, IsOffered), Filter(apps, IsRejected))
  }

  /**
   * An application in the Applied card is in no other card, so Applied and
   * each other card together count at most the whole list.
   */
  lemma AppliedIsExclusive(apps: seq<Application>)
    ensures Count(apps, IsApplied) + Count(apps, IsInterviewing) <= |apps|
    ensures Count(apps, IsApplied) + Count(apps, IsOffered) <= |apps|
    ensures Count(apps, IsApplied) + Count(apps, IsRejected) <= |apps|
  {
    CountDisjoint(apps, IsApplied, IsInterviewing);
    CountDisjoint(apps, IsApplied, IsOffered);
    CountDisjoint(apps, IsApplied, IsRejected);
  }

  /** The Offered and Rejected cards are not exclusive: one application can be counted in both. */
  lemma OfferedAndRejectedOverlap()
    ensures var a := Application("a", "c", "r", "applied", "2026-01-01", 1, 1);
            IsOffered(a) && IsRejected(a) && Count(Groups([a]).offered, IsRejected) == 1
  {
  }

  /** The badge text: an offer wins over a rejection, and either wins over the stored status. */
  function StatusLabel(a: Application): (r: string)
    ensures a.offerReceived != 0 ==> r == "Offered"
    ensures a.offerReceived == 0 && a.rejectionReceived != 0 ==> r == "Rejected"
    ensures a.offerReceived == 0 && a.rejectionReceived == 0 ==> r == a.status
  {
    if a.offerReceived != 0 then "Offered" else if a.rejectionReceived != 0 then "Rejected" else a.status
  }

  /** The badge agrees with the cards: an offered application reads "Offered", an applied one "applied". */
  lemma LabelAgreesWithGroups(a: Application)
    ensures IsOffered(a) ==> StatusLabel(a) == "Offered"
    ensures IsRejected(a) && a.offerReceived == 0 ==> StatusLabel(a) == "Rejected"
    ensures IsApplied(a) ==> StatusLabel(a) == "applied"
    ensures IsInterviewing(a) && a.offerReceived == 0 && a.rejectionReceived == 0 ==> StatusLabel(a) == "interviewing"
  {
  }
}
