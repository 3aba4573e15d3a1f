/** The onboarding wizard (src/components/OnboardingModal.tsx): a dialog with a
    step counter from 1 to 4, Next/Back buttons, a Skip link, and the
    `onComplete` callback it calls when the user finishes or skips. */
module Onboarding {
  import Text

  const TotalSteps: int := 4

  /** The user's ways of moving the wizard. `Dismiss` is the dialog closing
      itself (Escape, overlay click) through `onOpenChange`. */
  datatype Action = Next | Back | Skip | Dismiss

  ghost predicate InRange(step: int)
  {
    1 <= step <= TotalSteps
  }

  /** The step after an action. */
  function StepAfter(step: int, a: Action): int
  {
    match a
    case Next => if step < TotalSteps then step + 1 else step
    case Back => if step > 1 then step - 1 else step
    case Skip => step
    case Dismiss => step
  }

  /** Whether an action runs `handleComplete`, which closes the dialog and
      calls `onComplete`. */
  function Completes(step: int, a: Action): bool
  {
    match a
    case Next => step >= TotalSteps
    case Back => false
    case Skip => true
    case Dismiss => false
  }

  /** The step after a sequence of actions. */
  function Run(step: int, actions: seq<Action>): int
    decreases |actions|
  {
    if actions == [] then step else Run(StepAfter(step, actions[0]), actions[1..])
  }

  /** How many times a sequence of actions calls `onComplete`. */
  function CompletionsDuring(step: int, actions: seq<Action>): nat
    decreases |actions|
  {
    if actions == [] then 0
    else (if Completes(step, actions[0]) then 1 else 0)
         + CompletionsDuring(StepAfter(step, actions[0]), actions[1..])
  }

  lemma StepAfterInRange(step: int, a: Action)
    requires InRange(step)
    ensures InRange(StepAfter(step, a))
  {
  }

  /** The counter stays within 1..4 under any sequence of Next, Back and Skip. */
  lemma {:induction false} RunStaysInRange(step: int, actions: seq<Action>)
    requires InRange(step)
    ensures InRange(Run(step, actions))
    decreases |actions|
  {
    if actions != [] {
      StepAfterInRange(step, actions[0]);
      RunStaysInRange(StepAfter(step, actions[0]), actions[1..]);
    }
  }

  /** Next below the last step is undone by Back, and Back above the first
      step is undone by Next. */
  lemma NextBackInverse(step: int)
    requires InRange(step)
    ensures step < TotalSteps ==> StepAfter(StepAfter(step, Next), Back) == step
    ensures step > 1 ==> StepAfter(StepAfter(step, Back), Next) == step
  {
  }

  /** From a fresh dialog, three Nexts reach the last step without completing,
      and the fourth Next completes exactly once. */
  lemma {:induction false} FourNextsComplete()
    ensures Run(1, [Next, Next, Next]) == TotalSteps
    ensures CompletionsDuring(1, [Next, Next, Next]) == 0
    ensures CompletionsDuring(1, [Next, Next, Next, Next]) == 1
  {
    assert [Next, Next, Next][1..] == [Next, Next];
    assert [Next, Next][1..] == [Next];
    assert [Next, Next, Next, Next][1..] == [Next, Next, Next];
    assert [Next][1..] == [];
  }

  /** Back is disabled on the first step. */
  function BackDisabled(step: int): bool
  {
    step == 1
  }

  /** The label of the primary button. */
  function PrimaryLabel(step: int): string
  {
    if step < TotalSteps then "Next" else "Get Started"
  }

  /** The value of the visible tab, `step-${currentStep}`. */
  function TabValue(step: nat): string
  {
    "step-" + Text.DecimalString(step)
  }

  /** The disabled Back button is exactly the one that would do nothing, and
      the button reads "Get Started" exactly when pressing it completes. */
  lemma ButtonsMatchTransitions(step: int)
    requires InRange(step)
    ensures BackDisabled(step) <==> StepAfter(step, Back) == step
    ensures PrimaryLabel(step) == "Get Started" <==> Completes(step, Next)
    ensures PrimaryLabel(step) == "Next" <==> StepAfter(step, Next) == step + 1
  {
  }

  /** Every reachable step shows one of the four tab panels, and different
      steps show different panels. */
  lemma {:induction false} TabValueShowsOnePanel(step: nat, other: nat)
    requires InRange(step)
    ensures TabValue(step) in ["step-1", "step-2", "step-3", "step-4"]
    ensures TabValue(step) == TabValue(other) ==> step == other
  {
    var prefix := "step-";
    assert Text.DecimalString(step) == [Text.DigitChar(step)];
    assert TabValue(step) == prefix + [('0' as int + step) as char];
    if step == 1 {
      assert TabValue(step) == "step-1";
    } else if step == 2 {
      assert TabValue(step) == "step-2";
    } else if step == 3 {
      assert TabValue(step) == "step-3";
    } else {
      assert TabValue(step) == "step-4";
    }
    if TabValue(step) == TabValue(other) {
      assert TabValue(step)[|prefix|..] == Text.DecimalString(step);
      assert TabValue(other)[|prefix|..] == Text.DecimalString(other);
      Text.DecimalRoundTrip(step);
      Text.DecimalRoundTrip(other);
    }
  }

  class OnboardingModal {
    /** The `open` state of the dialog. */
    var open: bool
    /** The `currentStep` state, 1-based. */
    var currentStep: int
    /** How many times `onComplete` has been called. */
    ghost var completions: nat

    ghost predicate Valid()
      reads this
    {
      InRange(currentStep)
    }

    constructor ()
      ensures Valid()
      ensures open && currentStep == 1 && completions == 0
    {
      open := true;
      currentStep := 1;
      completions := 0;
    }

    /** `handleComplete`: close the dialog, then call `onComplete`. The Skip
        link calls it directly. */
    method HandleComplete()
      requires Valid()
      modifies this
      ensures Valid()
      ensures !open && currentStep == old(currentStep)
      ensures completions == old(completions) + 1
    {
      open := false;
      completions := completions + 1;
    }

    method NextStep()
      requires Valid()
      modifies this
      ensures Valid()
      ensures currentStep == StepAfter(old(currentStep), Next)
      ensures open == (old(open) && !Completes(old(currentStep), Next))
      ensures completions == old(completions) + if Completes(old(currentStep), Next) then 1 else 0
    {
      if currentStep < TotalSteps {
        currentStep := currentStep + 1;
      } else {
        HandleComplete();
      }
    }

    method PrevStep()
      requires Valid()
      modifies this
      ensures Valid()
      ensures currentStep == StepAfter(old(currentStep), Back)
      ensures open == old(open) && completions == old(completions)
    {
      if currentStep > 1 {
        currentStep := currentStep - 1;
      }
    }

    /** `onOpenChange={setOpen}`: the dialog's own close control sets `open`
        and does not call `onComplete`. */
    method OnOpenChange(value: bool)
      requires Valid()
      modifies this`open
      ensures Valid()
      ensures open == value
    {
      open := value;
    }
  }
}
