/** Step navigation of the RenderStepForm wizard, stated on values.
    A wizard holds a 1-based step counter and a number of completion
    events (calls of the caller's onComplete callback). The caller fixes the
    total number of steps, and supplies a validity predicate on steps to
    every render. */
module StepNavigation {

  /** The state the component changes: its step counter, and how many times
      it has asked the caller to complete. */
  datatype NavState = NavState(step: int, completions: nat)

  /** A press of one of the two controls. The validity predicate is a prop
      the caller supplies again on every render, so a forward press carries
      the predicate of the render whose control was pressed. */
  datatype Press = Back | Forward(isStepValid: int -> bool)

  /** The counter a freshly mounted wizard shows. */
  const FirstStep: int := 1

  const CompleteLabel: string := "Complete \U{27A1}\U{FE0F}"
  const ContinueLabel: string := "Continue"

  /** The state of a freshly mounted wizard, whatever its number of steps:
      on step 1, with its back control disabled and nothing completed. */
  function Initial(): (s: NavState)
    ensures s.step == FirstStep && BackDisabled(s.step)
    ensures s.completions == 0
  {
    NavState(FirstStep, 0)
  }

  /** The validity predicate used when the caller supplies none. */
  function AlwaysValid(step: int): (r: bool)
    ensures r
  {
    true
  }

  /** The forward handler: advance while below the last step, ask for
      completion on the last step, do nothing past it. */
  function Ahead(s: NavState, totalSteps: int): (r: NavState)
    ensures s.step < totalSteps ==> r.step == s.step + 1 && r.completions == s.completions
    ensures s.step == totalSteps ==> r.step == s.step && r.completions == s.completions + 1
    ensures s.step > totalSteps ==> r == s
    ensures 1 <= s.step <= totalSteps ==> 1 <= r.step <= totalSteps
  {
    if s.step < totalSteps then s.(step := s.step + 1)
    else if s.step == totalSteps then s.(completions := s.completions + 1)
    else s
  }

  /** The backward handler: step back, never below the first step, never
      completing. */
  function Prev(s: NavState): (r: NavState)
    ensures s.step > FirstStep ==> r.step == s.step - 1
    ensures s.step <= FirstStep ==> r == s
    ensures r.completions == s.completions
    ensures FirstStep <= s.step ==> FirstStep <= r.step <= s.step
  {
    if s.step > FirstStep then s.(step := s.step - 1) else s
  }

  /** The back control is disabled exactly on the first step, which (for a
      counter at or above 1) is exactly where the back handler does nothing. */
  function BackDisabled(step: int): (r: bool)
    ensures FirstStep <= step ==> (r <==> Prev(NavState(step, 0)).step == step)
    ensures r ==> step == FirstStep
  {
    step == FirstStep
  }

  /** The forward control is disabled exactly when the caller's predicate
      rejects the current step; the default predicate never disables it. */
  function ForwardDisabled(step: int, isStepValid: int -> bool): (r: bool)
    ensures r <==> !isStepValid(step)
    ensures isStepValid == AlwaysValid ==> !r
  {
    !isStepValid(step)
  }

  /** The text of the forward control. */
  function ButtonLabel(step: int, totalSteps: int): (r: string)
    ensures r == CompleteLabel <==> step == totalSteps
    ensures r == ContinueLabel <==> step != totalSteps
  {
    if step == totalSteps then CompleteLabel else ContinueLabel
  }

  /** One press of a control; a press on a disabled control does nothing. */
  function Apply(s: NavState, totalSteps: int, p: Press): (r: NavState)
    ensures p.Back? && s.step == FirstStep ==> r == s
    ensures p.Back? && s.step != FirstStep ==> r == Prev(s)
    ensures p.Forward? && !p.isStepValid(s.step) ==> r == s
    ensures p.Forward? && p.isStepValid(s.step) ==> r == Ahead(s, totalSteps)
    ensures p.Back? ==> r.completions == s.completions
    ensures FirstStep <= s.step ==> FirstStep <= r.step
    ensures FirstStep <= s.step <= totalSteps ==> FirstStep <= r.step <= totalSteps
  {
    match p
    case Back => if BackDisabled(s.step) then s else Prev(s)
    case Forward(isStepValid) => if ForwardDisabled(s.step, isStepValid) then s else Ahead(s, totalSteps)
  }

  /** A sequence of presses, applied in order. */
  function Run(s: NavState, totalSteps: int, presses: seq<Press>): (r: NavState)
    ensures FirstStep <= s.step ==> FirstStep <= r.step
    decreases |presses|
  {
    if presses == [] then s
    else Run(Apply(s, totalSteps, presses[0]), totalSteps, presses[1..])
  }

  /** n presses of the forward control, each on a render whose predicate is
      isStepValid. */
  function Forwards(n: nat, isStepValid: int -> bool): (r: seq<Press>)
    ensures |r| == n
    ensures forall i :: 0 <= i < n ==> r[i].Forward? && r[i].isStepValid == isStepValid
  {
    if n == 0 then [] else [Forward(isStepValid)] + Forwards(n - 1, isStepValid)
  }

  function Min(a: int, b: int): int {
    if a <= b then a else b
  }

  function Max(a: int, b: int): int {
    if a <= b then b else a
  }

  /** From any step below the last, going ahead and then back returns to
      the same state. */
  lemma AheadThenPrev(s: NavState, totalSteps: int)
    requires FirstStep <= s.step < totalSteps
    ensures Prev(Ahead(s, totalSteps)) == s
  {
  }

  /** From any step after the first (and not past the last), going back
      and then ahead returns to the same state. */
  lemma PrevThenAhead(s: NavState, totalSteps: int)
    requires FirstStep < s.step <= totalSteps
    ensures Ahead(Prev(s), totalSteps) == s
  {
  }

  /** Whatever the user presses, under whatever predicates the caller
      supplies on the way, the counter stays within 1..totalSteps once it
      starts there. */
  lemma {:induction false} RunKeepsBounds(s: NavState, totalSteps: int, presses: seq<Press>)
    requires FirstStep <= s.step <= totalSteps
    ensures FirstStep <= Run(s, totalSteps, presses).step <= totalSteps
    decreases |presses|
  {
    if presses != [] {
      RunKeepsBounds(Apply(s, totalSteps, presses[0]), totalSteps, presses[1..]);
    }
  }

  /** A wizard never takes back a completion it has asked for. */
  lemma {:induction false} RunCompletionsGrow(s: NavState, totalSteps: int, presses: seq<Press>)
    ensures s.completions <= Run(s, totalSteps, presses).completions
    decreases |presses|
  {
    if presses != [] {
      RunCompletionsGrow(Apply(s, totalSteps, presses[0]), totalSteps, presses[1..]);
    }
  }

  /** With no steps to show (totalSteps < 1), the initial wizard is stuck:
      no sequence of presses moves its counter or ever completes, whatever
      the caller's predicates accept. */
  lemma {:induction false} StuckWithoutSteps(totalSteps: int, presses: seq<Press>)
    requires totalSteps < FirstStep
    ensures Run(Initial(), totalSteps, presses) == Initial()
    decreases |presses|
  {
    if presses != [] {
      assert Apply(Initial(), totalSteps, presses[0]) == Initial();
      StuckWithoutSteps(totalSteps, presses[1..]);
    }
  }

  /** Pressing forward n times on steps the caller accepts walks up to the
      last step and then asks for completion once per further press. */
  lemma {:induction false} ForwardsWalk(s: NavState, totalSteps: int, isStepValid: int -> bool, n: nat)
    requires FirstStep <= s.step <= totalSteps
    requires forall j :: s.step <= j <= totalSteps ==> isStepValid(j)
    ensures Run(s, totalSteps, Forwards(n, isStepValid)).step == Min(s.step + n, totalSteps)
    ensures Run(s, totalSteps, Forwards(n, isStepValid)).completions
            == s.completions + Max(0, s.step + n - totalSteps)
    decreases n
  {
    if n > 0 {
      var fs := Forwards(n, isStepValid);
      assert fs[0] == Forward(isStepValid) && fs[1..] == Forwards(n - 1, isStepValid);
      var t := Apply(s, totalSteps, Forward(isStepValid));
      assert t == Ahead(s, totalSteps);
      ForwardsWalk(t, totalSteps, isStepValid, n - 1);
    }
  }

  /** Every step 1..totalSteps is reachable from the initial state, and
      the wizard can complete, when the caller accepts every step (as the
      default predicate does). */
  lemma EveryStepReachable(totalSteps: int, k: int)
    requires FirstStep <= k <= totalSteps
    ensures Run(Initial(), totalSteps, Forwards(k - FirstStep, AlwaysValid)).step == k
    ensures Run(Initial(), totalSteps, Forwards(totalSteps, AlwaysValid)).completions == 1
  {
    ForwardsWalk(Initial(), totalSteps, AlwaysValid, k - FirstStep);
    ForwardsWalk(Initial(), totalSteps, AlwaysValid, totalSteps);
  }

  /** A step the caller rejects holds the wizard only while the caller keeps
      rejecting it: once a later render's predicate accepts the step, a
      forward press moves on. */
  lemma {:induction false} RejectedStepUnblocks(s: NavState, totalSteps: int, rejecting: int -> bool,
                                                 accepting: int -> bool, n: nat)
    requires FirstStep <= s.step < totalSteps
    requires !rejecting(s.step) && accepting(s.step)
    ensures Run(s, totalSteps, Forwards(n, rejecting)) == s
    ensures Run(s, totalSteps, Forwards(n, rejecting) + [Forward(accepting)]).step == s.step + 1
    decreases n
  {
    if n > 0 {
      var fs := Forwards(n, rejecting);
      assert fs[0] == Forward(rejecting) && fs[1..] == Forwards(n - 1, rejecting);
      assert (fs + [Forward(accepting)])[1..] == Forwards(n - 1, rejecting) + [Forward(accepting)];
      RejectedStepUnblocks(s, totalSteps, rejecting, accepting, n - 1);
    } else {
      assert Forwards(0, rejecting) + [Forward(accepting)] == [Forward(accepting)];
      assert [Forward(accepting)][1..] == [];
    }
  }
}
