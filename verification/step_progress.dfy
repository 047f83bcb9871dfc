/**
  The reusable step list (`components/StepProgress.tsx`): clicking a step
  notifies the parent and announces the step's title, but only for a step
  that is not ahead of the current one.
 */
module StepProgress {
  import Assistant

  /** What a click does: nothing; the parent is told the step and the
      announcement names its title; or the parent is told and the title
      lookup then fails because no step sits at that position. */
  datatype Outcome =
    | Ignored
    | Selected(stepId: int, title: string)
    | SelectedLookupFails(stepId: int)

  /** `handleStepClick(stepId)`; the title is looked up at position `stepId - 1`. */
  function HandleStepClick(steps: seq<Assistant.Step>, currentStep: int, stepId: int): (r: Outcome)
    ensures r == Ignored <==> stepId > currentStep
    ensures r.Selected? <==> stepId <= currentStep && 1 <= stepId <= |steps|
    ensures r.Selected? ==> r.stepId == stepId && r.title == steps[stepId - 1].title
    ensures r.SelectedLookupFails? ==> r.stepId == stepId
  {
    if stepId > currentStep then Ignored
    else if 1 <= stepId <= |steps| then Selected(stepId, steps[stepId - 1].title)
    else SelectedLookupFails(stepId)
  }

  /** The parent's callback sees a step that is never ahead of the current one. */
  lemma NeverAhead(steps: seq<Assistant.Step>, currentStep: int, stepId: int)
    ensures HandleStepClick(steps, currentStep, stepId) != Ignored ==> stepId <= currentStep
  {
  }

  /** When the steps are numbered by position and the current step is one of
      them, clicking any displayed step either is ignored or announces that
      very step: the lookup cannot fail. */
  lemma DisplayedStepsLookUp(steps: seq<Assistant.Step>, currentStep: int, i: int)
    requires Assistant.IdsArePositions(steps)
    requires 0 <= i < |steps|
    ensures var r := HandleStepClick(steps, currentStep, steps[i].id);
      r == Ignored || r == Selected(steps[i].id, steps[i].title)
  {
  }

  /** The same in the assistant's own flows. */
  lemma FlowClicksLookUp(k: Assistant.SchemeKey, currentStep: int, i: int)
    requires 0 <= i < |Assistant.FlowOf(k).steps|
    ensures !HandleStepClick(Assistant.FlowOf(k).steps, currentStep, Assistant.FlowOf(k).steps[i].id).SelectedLookupFails?
  {
    Assistant.FlowsNumbered(k);
    DisplayedStepsLookUp(Assistant.FlowOf(k).steps, currentStep, i);
  }
}
