# StepForm wizard navigation, verified in Dafny

This project models the step navigation of the `RenderStepForm` wizard
component of StepForm. The wizard is a React Native container. It
keeps a 1-based step counter (`detailState`), which starts at 1. It shows
the counter as `step/totalSteps` in its header. It has a back control and
a forward control:

- The forward handler (`DetailNavAhead`) moves to the next step while the
  counter is below `totalSteps`. On the last step it calls the caller's
  `onComplete` instead.
- The back handler (`DetailNavPrev`) moves to the previous step, never
  below 1.
- The back control is disabled on step 1.
- The forward control is disabled while the caller's `isStepValid(step)` is
  false. By default that predicate accepts every step.
- The forward control reads "Complete ➡️" on the last step and "Continue"
  otherwise.

Files:

- `StepNavigation.dfy` (module `StepNavigation`) states the logic on values:
  - the two handlers, `Ahead` and `Prev`;
  - the guards on the controls and the button text;
  - one press of a control (`Apply`) and a sequence of presses (`Run`).
    A forward press carries the validity predicate of the render it was
    made on, because the caller passes `isStepValid` again on every render;
  - lemmas about runs: bounds, round trips, the stuck wizard when
    `totalSteps < 1`, reachability and completion, and a rejected step
    that unblocks once the caller's predicate accepts it.
- `StepHeader.dfy` (module `StepHeader`) renders the `step/totalSteps`
  header in decimal. It also gives a parser and proves that the header
  always reads back as the step and total it was drawn from.
- `RenderStepForm.dfy` (module `RenderStepForm`) is the component itself,
  as a class. `step` and `completions` are mutable fields. `totalSteps`
  is a constant fixed at construction. Each handler and each control press
  is a method whose new state is tied to the value-level function above.
  `PressForward` and `Render` take the validity predicate of the current
  render as a parameter. `Render` is a function of the state that gives
  what one render shows.

`onComplete` is modelled as a counter, `completions`. It counts how many
times the wizard asks the caller to complete. When the caller passes no
callback, `onComplete?.()` does nothing, and the counter then only records
that the request was made. `isStepValid` is an arbitrary total predicate
`int -> bool`, taken as a parameter of each forward press and each render;
its default is `AlwaysValid`.

## Model

| member | source | states |
|---|---|---|
| StepNavigation.Initial | src/RenderStepForm.tsx:243 | a mounted wizard is on step 1 whatever totalSteps is, its back control is disabled, and nothing has been completed |
| StepNavigation.AlwaysValid | src/RenderStepForm.tsx:240 | the default predicate accepts every step |
| StepNavigation.Ahead | src/RenderStepForm.tsx:245-251 | below the last step the counter advances by one with no completion; on the last step the counter stays and exactly one completion is requested; past the last step nothing changes; a counter within 1..totalSteps stays there |
| StepNavigation.Prev | src/RenderStepForm.tsx:253-257 | above step 1 the counter goes back by one; at or below step 1 nothing changes; never requests completion; never goes below 1 from a counter at or above 1 |
| StepNavigation.BackDisabled | src/RenderStepForm.tsx:269 | the back control is disabled only on step 1; for counters at or above 1 it is disabled exactly where the back handler would leave the step unchanged |
| StepNavigation.ForwardDisabled | src/RenderStepForm.tsx:321 | the forward control is disabled exactly when the caller's predicate rejects the current step; with the default predicate it is never disabled |
| StepNavigation.ButtonLabel | src/RenderStepForm.tsx:334 | the forward control reads "Complete ➡️" exactly when the counter equals totalSteps, and "Continue" exactly otherwise |
| StepNavigation.Apply | src/RenderStepForm.tsx:245-322 | a back press on step 1 changes nothing and a back press elsewhere runs the back handler (`Prev`); a forward press on a step its render's predicate rejects changes nothing and otherwise runs the forward handler (`Ahead`); a back press never completes; a press keeps the counter at or above 1, and within 1..totalSteps when it starts there |
| StepNavigation.Run | src/RenderStepForm.tsx:245-322 | presses are applied in order, each through `Apply`; no sequence of presses takes a counter at or above 1 below 1 |
| StepNavigation.AheadThenPrev | src/RenderStepForm.tsx:246-256 | from any step in 1..totalSteps-1, going ahead and then back restores the state exactly |
| StepNavigation.PrevThenAhead | src/RenderStepForm.tsx:246-256 | from any step in 2..totalSteps, going back and then ahead restores the state exactly |
| StepNavigation.RunKeepsBounds | src/RenderStepForm.tsx:243-257 | every sequence of presses from a counter in 1..totalSteps keeps it in 1..totalSteps |
| StepNavigation.RunCompletionsGrow | src/RenderStepForm.tsx:245-257 | no sequence of presses lowers the number of completion requests |
| StepNavigation.StuckWithoutSteps | src/RenderStepForm.tsx:243-257 | when totalSteps < 1 the initial wizard is stuck: no sequence of presses changes its counter or ever requests completion |
| StepNavigation.ForwardsWalk | src/RenderStepForm.tsx:245-251 | n forward presses on accepted steps from step s end on step min(s+n, totalSteps), having requested completion max(0, s+n-totalSteps) times, so each press on the last step requests completion again |
| StepNavigation.RejectedStepUnblocks | src/RenderStepForm.tsx:321-322 | any number of forward presses on a step the caller rejects leave the state unchanged, and one press on a later render whose predicate accepts the step advances it by one |
| StepNavigation.EveryStepReachable | src/RenderStepForm.tsx:240-251 | with the default predicate, each step 1..totalSteps is reached from the initial state by forward presses, and totalSteps presses request completion exactly once |
| StepHeader.IntToString | src/RenderStepForm.tsx:291 | an integer is written in canonical decimal: a leading minus sign exactly when it is negative, "0" exactly for zero, no leading zero otherwise (also after the sign), and never the "/" separator |
| StepHeader.NatRoundTrip | src/RenderStepForm.tsx:291 | reading back the decimal digits of a natural number gives that number |
| StepHeader.IntRoundTrip | src/RenderStepForm.tsx:291 | parsing the decimal text of an integer gives that integer |
| StepHeader.Header | src/RenderStepForm.tsx:291 | the header is the step's decimal text, a "/" and the total's decimal text, and its first "/" is the one right after the step's digits |
| StepHeader.HeaderRoundTrip | src/RenderStepForm.tsx:291 | the header "step/totalSteps" parses back to exactly (step, totalSteps) |
| StepHeader.HeaderInjective | src/RenderStepForm.tsx:291 | two different (step, totalSteps) pairs never show the same header |
| RenderStepForm.StepForm.constructor | src/RenderStepForm.tsx:234-243 | a mounted wizard starts on step 1 with no completion requested, whatever totalSteps is |
| RenderStepForm.StepForm.NavAhead | src/RenderStepForm.tsx:245-251 | the new counter and completion count are `Ahead` of the old ones: advance below the last step, one completion on it, nothing past it; the bounds invariant is kept |
| RenderStepForm.StepForm.NavPrev | src/RenderStepForm.tsx:253-257 | the new state is `Prev` of the old one: one step back above step 1, nothing at step 1, completions untouched; the bounds invariant is kept |
| RenderStepForm.StepForm.PressBack | src/RenderStepForm.tsx:269 | a press of the back control is `Apply` with `Back`; on step 1 the control is disabled and nothing changes |
| RenderStepForm.StepForm.PressForward | src/RenderStepForm.tsx:240-322 | a press of the forward control is `Apply` with `Forward` under the current render's predicate (by default one that accepts every step); while that predicate rejects the current step nothing changes and nothing completes |
| RenderStepForm.StepForm.Render | src/RenderStepForm.tsx:269-334 | back is enabled exactly off step 1; forward is enabled exactly when the render's predicate accepts the step; the header is "step/totalSteps" and reads back as both numbers; the button text is "Complete ➡️" exactly on the last step and "Continue" otherwise; the caller's renderer gets the current step |

## Left out

- Rendering and styling: the `View`/`Text`/`Pressable` tree, colours, margins, the head text and the forward control's opacity (src/RenderStepForm.tsx:259-338). These are layout with no behaviour to state.
- The progress-bar width `(detailState / totalSteps) * 100` percent (src/RenderStepForm.tsx:308). It is floating-point layout text.
- React hook semantics: re-rendering by `useState`, handlers that capture a stale `detailState`, batched updates and the `async` handlers (src/RenderStepForm.tsx:243-257). Each press is modelled as one atomic transition on the current state.
- The caller's `children` renderer and the body of `isStepValid` (src/RenderStepForm.tsx:229-230, 317). They are foreign callbacks. `isStepValid` is an arbitrary predicate parameter, and `Render` records only which step `children` receives.
- Whether `onComplete` was supplied: the model counts completion requests, and an absent callback makes a request have no effect.
- `totalSteps` is a JavaScript number; the model takes it as an integer. A fractional total (for example 2.5) makes the counter pass it without ever equalling it. As with `totalSteps < 1`, the wizard then never completes, but the model does not state this.
- A `totalSteps` that changes between renders: the model fixes it when the component is constructed. The validity predicate, by contrast, is taken afresh for every render and every forward press.
- StepHeader.IntToString: writes every integer in plain decimal. JavaScript switches to exponent notation at 10^21 and above, and that is not modelled.
- Lines 1-219 of src/RenderStepForm.tsx: these are commented-out earlier versions (a per-step field renderer and a configuration-driven variant). They are not compiled and are not part of this model.
