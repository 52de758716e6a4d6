/** The RenderStepForm wizard component: the state it keeps between renders,
    its two navigation handlers, the guards on its controls, and what one
    render derives from the state. */
module RenderStepForm {
  import opened StepNavigation
  import StepHeader

  /** What one render shows besides the caller's content. */
  datatype View = View(
    backEnabled: bool,     // the back control accepts presses
    forwardEnabled: bool,  // the forward control accepts presses
    header: string,        // "step/totalSteps"
    buttonText: string,    // text of the forward control
    childStep: int)        // step handed to the caller's renderer

  class StepForm {
    /** The number of steps, fixed by the caller. */
    const totalSteps: int
    /** The current step, 1-based. */
    var step: int
    /** How many times the wizard has asked the caller to complete. */
    var completions: nat

    ghost function State(): NavState
      reads this
    {
      NavState(step, completions)
    }

    /** The counter is within 1..totalSteps, or stays on step 1 when there
        are no steps. */
    ghost predicate Valid()
      reads this
    {
      if totalSteps >= FirstStep then FirstStep <= step <= totalSteps else step == FirstStep
    }

    /** Mounting the wizard: it starts on step 1 whatever totalSteps is. */
    constructor (totalSteps: int)
      ensures this.totalSteps == totalSteps
      ensures step == FirstStep && completions == 0
      ensures State() == Initial()
      ensures Valid()
    {
      this.totalSteps := totalSteps;
      step := FirstStep;
      completions := 0;
    }

    /** The forward handler, run when the forward control is pressed. */
    method NavAhead()
      requires Valid()
      modifies this
      ensures Valid()
      ensures State() == Ahead(old(State()), totalSteps)
    {
      if step < totalSteps {
        step := step + 1;
      } else if step == totalSteps {
        completions := completions + 1;
      }
    }

    /** The backward handler, run when the back control is pressed. */
    method NavPrev()
      requires Valid()
      modifies this
      ensures Valid()
      ensures State() == Prev(old(State()))
    {
      if step > FirstStep {
        step := step - 1;
      }
    }

    /** A press on the back control, which is disabled on step 1. */
    method PressBack()
      requires Valid()
      modifies this
      ensures Valid()
      ensures State() == Apply(old(State()), totalSteps, Back)
      ensures old(step) == FirstStep ==> unchanged(this)
    {
      if !BackDisabled(step) {
        NavPrev();
      }
    }

    /** A press on the forward control, made on a render whose validity
        predicate is isStepValid; the control is disabled while that
        predicate rejects the current step. */
    method PressForward(isStepValid: int -> bool := AlwaysValid)
      requires Valid()
      modifies this
      ensures Valid()
      ensures State() == Apply(old(State()), totalSteps, Forward(isStepValid))
      ensures !isStepValid(old(step)) ==> unchanged(this)
    {
      if !ForwardDisabled(step, isStepValid) {
        NavAhead();
      }
    }

    /** What a render of the current state shows, given the validity
        predicate the caller supplies to that render. */
    function Render(isStepValid: int -> bool := AlwaysValid): (v: View)
      reads this
      ensures v.backEnabled <==> step != FirstStep
      ensures v.forwardEnabled <==> isStepValid(step)
      ensures v.header == StepHeader.Header(step, totalSteps)
      ensures StepHeader.ParseHeader(v.header) == StepHeader.Some((step, totalSteps))
      ensures v.buttonText == CompleteLabel <==> step == totalSteps
      ensures v.buttonText == CompleteLabel || v.buttonText == ContinueLabel
      ensures v.childStep == step
    {
      StepHeader.HeaderRoundTrip(step, totalSteps);
      View(!BackDisabled(step), !ForwardDisabled(step, isStepValid), StepHeader.Header(step, totalSteps),
           ButtonLabel(step, totalSteps), step)
    }
  }
}
