/**
 * The Playground tutorial (`front-end/src/components/TutorialModal.jsx`): the list of steps,
 * filtered by screen size, and the current step as the Next, Previous, Skip and close controls
 * move it. `localStorage` is a map field and each `onClose()` call is counted. Card and
 * highlight geometry are not modelled.
 */
module TutorialModal {
  /** One tutorial step; descriptions and card positions are presentation only. */
  datatype Step = Step(id: int, title: string, highlight: string, mobileOnly: bool)

  const AllTutorialSteps: seq<Step> := [
    Step(1, "Welcome to Playground", "", false),
    Step(2, "Left Sidebar Navigation", "sidebar-left", false),
    Step(3, "Text Input Area", "text-input", false),
    Step(4, "Right Sidebar Controls", "sidebar-right", false),
    Step(5, "Speak Button & Audio Playback", "speak-button", false),
    Step(6, "Control Card Menu", "control-card", true)]

  const CompletedKey: string := "playground_tutorial_completed"
  const TextToSpeech: string := "text-to-speech"
  const MobileMaxWidth: int := 900

  /** Keep the steps that are not mobile-only, or all of them on mobile, in their order. */
  function Filter(steps: seq<Step>, isMobile: bool): (r: seq<Step>)
    ensures |r| <= |steps|
    ensures forall i :: 0 <= i < |r| ==> isMobile || !r[i].mobileOnly
  {
    if steps == [] then []
    else if steps[0].mobileOnly && !isMobile then Filter(steps[1..], isMobile)
    else [steps[0]] + Filter(steps[1..], isMobile)
  }

  lemma {:induction false} FilterAppend(a: seq<Step>, b: seq<Step>, isMobile: bool)
    ensures Filter(a + b, isMobile) == Filter(a, isMobile) + Filter(b, isMobile)
  {
    if a == [] {
      assert a + b == b;
    } else {
      assert (a + b)[1..] == a[1..] + b;
      FilterAppend(a[1..], b, isMobile);
    }
  }

  /** A list without mobile-only steps, or any list on mobile, passes through unchanged. */
  lemma {:induction false} FilterKeeps(steps: seq<Step>, isMobile: bool)
    requires isMobile || forall i :: 0 <= i < |steps| ==> !steps[i].mobileOnly
    ensures Filter(steps, isMobile) == steps
  {
    if steps != [] {
      FilterKeeps(steps[1..], isMobile);
    }
  }

  /** Five steps on a desktop (the first five, in order), six on mobile. */
  lemma StepCounts()
    ensures Filter(AllTutorialSteps, true) == AllTutorialSteps
    ensures Filter(AllTutorialSteps, false) == AllTutorialSteps[..5]
  {
    var s := AllTutorialSteps;
    FilterKeeps(s, true);
    assert s == s[..5] + [s[5]];
    FilterAppend(s[..5], [s[5]], false);
    FilterKeeps(s[..5], false);
    assert Filter([s[5]], false) == [] by {
      assert [s[5]][1..] == [];
    }
  }

  /** How many steps the screen class shows. */
  function StepCount(isMobile: bool): nat {
    if isMobile then 6 else 5
  }

  /** `getTutorialSteps`: all six steps on mobile, the first five otherwise. */
  function VisibleSteps(isMobile: bool): (r: seq<Step>)
    ensures |r| == StepCount(isMobile)
  {
    StepCounts();
    Filter(AllTutorialSteps, isMobile)
  }

  /** The visible steps are the full list cut short, in their original order. */
  lemma VisibleStepsArePrefix(isMobile: bool)
    ensures VisibleSteps(isMobile) == AllTutorialSteps[..|VisibleSteps(isMobile)|]
  {
    StepCounts();
    assert AllTutorialSteps[..6] == AllTutorialSteps;
  }

  /** The progress bar width: the share of steps reached, in percent. */
  function Progress(currentStep: int, count: int): (p: real)
    requires 0 <= currentStep < count
    ensures 0.0 < p <= 100.0
    ensures p == 100.0 <==> currentStep == count - 1
  {
    var p := (currentStep + 1) as real / count as real * 100.0;
    ShareFacts(currentStep + 1, count);
    p
  }

  lemma ShareFacts(k: int, n: int)
    requires 0 < k <= n
    ensures 0.0 < k as real / n as real <= 1.0
    ensures k as real / n as real == 1.0 <==> k == n
  {
    var q := k as real / n as real;
    assert q * n as real == k as real;
    if q == 1.0 {
      assert k as real == n as real;
    }
  }

  /** The modal's state, with the `isOpen` prop, the `onClose` calls and `localStorage`. */
  class Tutorial {
    var isOpen: bool
    var isMobile: bool
    var currentStep: int
    var storage: map<string, string>
    var closeRequests: nat

    /** The current step indexes the visible list. */
    ghost predicate Valid()
      reads this
    {
      0 <= currentStep < StepCount(isMobile)
    }

    constructor(isMobile: bool, storage: map<string, string>)
      ensures Valid()
      ensures !isOpen && this.isMobile == isMobile && currentStep == 0 && this.storage == storage && closeRequests == 0
    {
      isOpen := false;
      this.isMobile := isMobile;
      currentStep := 0;
      this.storage := storage;
      closeRequests := 0;
    }

    /** Whether anything renders: only when open and on the text-to-speech view. */
    predicate Renders(activeView: string)
      reads this
    {
      isOpen && activeView == TextToSpeech
    }

    /** The step shown. */
    function Shown(): Step
      reads this
      requires Valid()
    {
      VisibleSteps(isMobile)[currentStep]
    }

    /** Opening the tutorial starts again from the first step. */
    method Open()
      requires Valid()
      modifies this
      ensures Valid() && isOpen && currentStep == 0
      ensures isMobile == old(isMobile) && storage == old(storage) && closeRequests == old(closeRequests)
    {
      isOpen := true;
      currentStep := 0;
    }

    /** The view check: an open tutorial outside the text-to-speech view asks to be closed. */
    method CheckView(activeView: string)
      modifies this
      ensures closeRequests == old(closeRequests) + (if isOpen && activeView != TextToSpeech then 1 else 0)
      ensures isOpen == old(isOpen) && isMobile == old(isMobile) && currentStep == old(currentStep)
      ensures storage == old(storage)
    {
      if isOpen && activeView != TextToSpeech {
        closeRequests := closeRequests + 1;
      }
    }

    /** `handleComplete` (finish, skip, the close button, a click on the overlay). */
    method Complete()
      modifies this
      ensures storage == old(storage)[CompletedKey := "true"] && closeRequests == old(closeRequests) + 1
      ensures isOpen == old(isOpen) && isMobile == old(isMobile) && currentStep == old(currentStep)
    {
      storage := storage[CompletedKey := "true"];
      closeRequests := closeRequests + 1;
    }

    /** `handleNext`: one step forward, or completion on the last step. */
    method Next()
      requires Valid()
      modifies this
      ensures Valid()
      ensures old(currentStep) < StepCount(isMobile) - 1 ==>
        currentStep == old(currentStep) + 1 && storage == old(storage) && closeRequests == old(closeRequests)
      ensures old(currentStep) == StepCount(isMobile) - 1 ==>
        currentStep == old(currentStep) && storage == old(storage)[CompletedKey := "true"] &&
        closeRequests == old(closeRequests) + 1
      ensures isOpen == old(isOpen) && isMobile == old(isMobile)
    {
      if currentStep < StepCount(isMobile) - 1 {
        currentStep := currentStep + 1;
      } else {
        Complete();
      }
    }

    /** `handlePrevious`: one step back, never before the first. */
    method Previous()
      requires Valid()
      modifies this
      ensures Valid()
      ensures currentStep == (if old(currentStep) > 0 then old(currentStep) - 1 else 0)
      ensures isOpen == old(isOpen) && isMobile == old(isMobile) && storage == old(storage)
      ensures closeRequests == old(closeRequests)
    {
      if currentStep > 0 {
        currentStep := currentStep - 1;
      }
    }

    /** The resize listener as written: the screen class changes, the current step does not. */
    method ResizeAsWritten(width: int)
      modifies this
      ensures isMobile == (width <= MobileMaxWidth) && currentStep == old(currentStep)
      ensures isOpen == old(isOpen) && storage == old(storage) && closeRequests == old(closeRequests)
    {
      isMobile := width <= MobileMaxWidth;
    }

    /** The resize listener with the current step clamped into the new list. */
    method Resize(width: int)
      requires Valid()
      modifies this
      ensures Valid()
      ensures isMobile == (width <= MobileMaxWidth)
      ensures currentStep == (if old(currentStep) < StepCount(isMobile) then old(currentStep)
                              else StepCount(isMobile) - 1)
      ensures isOpen == old(isOpen) && storage == old(storage) && closeRequests == old(closeRequests)
    {
      isMobile := width <= MobileMaxWidth;
      if currentStep >= StepCount(isMobile) {
        currentStep := StepCount(isMobile) - 1;
      }
    }
  }

  /**
   * On the last mobile step (index 5) a resize to a desktop width leaves the step index equal to
   * the length of the five-step desktop list, so `steps[currentStep]` is undefined.
   */
  method ResizeAsWrittenBreaksValid() returns (t: Tutorial)
    ensures t.currentStep == 5 && !t.isMobile && !t.Valid()
  {
    t := new Tutorial(true, map[]);
    t.Open();
    t.Next();
    t.Next();
    t.Next();
    t.Next();
    t.Next();
    t.ResizeAsWritten(1000);
  }

  /** With the clamp, the same walk ends on the last desktop step. */
  method ResizeClampsLastStep() returns (t: Tutorial)
    ensures t.currentStep == 4 && !t.isMobile && t.Valid()
  {
    t := new Tutorial(true, map[]);
    t.Open();
    t.Next();
    t.Next();
    t.Next();
    t.Next();
    t.Next();
    t.Resize(1000);
  }
}
