/**
 * What the three creation wizards of the project pages share: a drawer
 * holding a numbered step and a draft form, and the analytics event a
 * successful create writes.
 */
module Wizards {

  /** `handleNext`: one step on, except on the last step. */
  function NextStep(step: int, lastStep: int): int {
    if step < lastStep then step + 1 else step
  }

  /** `handleBack`: one step back, except on the first step. */
  function BackStep(step: int): int {
    if step > 1 then step - 1 else step
  }

  /** Both buttons keep the step within [1, lastStep], and Back undoes Next wherever Next moved. */
  lemma StepsStayInRange(step: int, lastStep: int)
    requires 1 <= step <= lastStep
    ensures 1 <= NextStep(step, lastStep) <= lastStep && 1 <= BackStep(step) <= lastStep
    ensures step < lastStep ==> BackStep(NextStep(step, lastStep)) == step
    ensures step > 1 ==> NextStep(BackStep(step), lastStep) == step
    ensures NextStep(lastStep, lastStep) == lastStep && BackStep(1) == 1
  {
  }

  /** A row of `analytics_events`. */
  datatype AnalyticsEvent = AnalyticsEvent(eventType: string, eventSubtype: string, metricName: string, metricValue: real)

  /**
   * A creation drawer: whether it is open, the step shown, and the draft
   * typed so far. The step stays within [1, lastStep].
   */
  class Wizard<F> {
    const lastStep: int
    var isDrawerOpen: bool
    var currentStep: int
    var formData: F

    predicate Valid()
      reads this
    {
      1 <= currentStep <= lastStep
    }

    constructor(lastStep: int, initial: F)
      requires lastStep >= 1
      ensures this.lastStep == lastStep && Valid()
      ensures !isDrawerOpen && currentStep == 1 && formData == initial
    {
      this.lastStep := lastStep;
      isDrawerOpen, currentStep, formData := false, 1, initial;
    }

    /** The create button opens the drawer where it was left. */
    method Open()
      requires Valid()
      modifies this
      ensures Valid()
      ensures isDrawerOpen && currentStep == old(currentStep) && formData == old(formData)
    {
      isDrawerOpen := true;
    }

    method Next()
      requires Valid()
      modifies this
      ensures Valid()
      ensures currentStep == NextStep(old(currentStep), lastStep)
      ensures isDrawerOpen == old(isDrawerOpen) && formData == old(formData)
    {
      if currentStep < lastStep {
        currentStep := currentStep + 1;
      }
    }

    method Back()
      requires Valid()
      modifies this
      ensures Valid()
      ensures currentStep == BackStep(old(currentStep))
      ensures isDrawerOpen == old(isDrawerOpen) && formData == old(formData)
    {
      if currentStep > 1 {
        currentStep := currentStep - 1;
      }
    }

    /** `updateField`: the draft becomes `f`; step and drawer are untouched. */
    method Edit(f: F)
      requires Valid()
      modifies this
      ensures Valid()
      ensures formData == f
      ensures isDrawerOpen == old(isDrawerOpen) && currentStep == old(currentStep)
    {
      formData := f;
    }

    /** The drawer's `onClose`: it closes and goes back to the first step, keeping the draft. */
    method Close()
      requires Valid()
      modifies this
      ensures Valid()
      ensures !isDrawerOpen && currentStep == 1 && formData == old(formData)
    {
      isDrawerOpen := false;
      currentStep := 1;
    }

    /**
     * The state half of `handleSubmit`: after a successful insert the drawer
     * closes, the step returns to 1 and the draft is replaced by `reset`;
     * after a failed one nothing changes.
     */
    method Finish(succeeded: bool, reset: F)
      requires Valid()
      modifies this
      ensures Valid()
      ensures succeeded ==> !isDrawerOpen && currentStep == 1 && formData == reset
      ensures !succeeded ==> isDrawerOpen == old(isDrawerOpen) && currentStep == old(currentStep) && formData == old(formData)
    {
      if succeeded {
        isDrawerOpen := false;
        currentStep := 1;
        formData := reset;
      }
    }
  }
}
