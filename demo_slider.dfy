/** The "how it works" carousel: three steps, stepped forwards and backwards cyclically, chosen
    directly by an indicator, and advanced by a timer only while playing. The timer is a method
    the caller invokes for each interval that fires. */
module DemoSlider {
  /** `demoSteps.length`. */
  const StepCount := 3

  function NextStep(i: int): (r: int)
    requires 0 <= i < StepCount
    ensures 0 <= r < StepCount
    ensures r == i + 1 || (i == StepCount - 1 && r == 0)
  {
    (i + 1) % StepCount
  }

  function PrevStep(i: int): (r: int)
    requires 0 <= i < StepCount
    ensures 0 <= r < StepCount
    ensures r == i - 1 || (i == 0 && r == StepCount - 1)
  {
    (i - 1 + StepCount) % StepCount
  }

  /** Stepping back undoes stepping forward, and the other way round. */
  lemma StepsInverse(i: int)
    requires 0 <= i < StepCount
    ensures PrevStep(NextStep(i)) == i
    ensures NextStep(PrevStep(i)) == i
  {
  }

  /** Three advances come back to the starting step, and fewer never do. */
  lemma FullCycle(i: int)
    requires 0 <= i < StepCount
    ensures NextStep(NextStep(NextStep(i))) == i
    ensures NextStep(i) != i && NextStep(NextStep(i)) != i
  {
  }

  class Slider {
    var currentStep: int
    var isPlaying: bool

    predicate Valid()
      reads this
    {
      0 <= currentStep < StepCount
    }

    /** The carousel starts on the first step, playing. */
    constructor ()
      ensures Valid() && currentStep == 0 && isPlaying
    {
      currentStep, isPlaying := 0, true;
    }

    method Next()
      requires Valid()
      modifies this`currentStep
      ensures Valid() && currentStep == NextStep(old(currentStep))
    {
      currentStep := (currentStep + 1) % StepCount;
    }

    method Prev()
      requires Valid()
      modifies this`currentStep
      ensures Valid() && currentStep == PrevStep(old(currentStep))
    {
      currentStep := (currentStep - 1 + StepCount) % StepCount;
    }

    /** Clicking indicator k, one of the step indices. */
    method SelectIndicator(k: int)
      requires Valid() && 0 <= k < StepCount
      modifies this`currentStep
      ensures Valid() && currentStep == k
    {
      currentStep := k;
    }

    method TogglePlay()
      modifies this`isPlaying
      ensures isPlaying == !old(isPlaying)
    {
      isPlaying := !isPlaying;
    }

    /** One timer interval: the interval exists only while playing. */
    method Tick()
      requires Valid()
      modifies this`currentStep
      ensures Valid()
      ensures currentStep == if isPlaying then NextStep(old(currentStep)) else old(currentStep)
    {
      if isPlaying {
        currentStep := (currentStep + 1) % StepCount;
      }
    }
  }
}
