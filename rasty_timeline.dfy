/** The six-day timeline of the search for Rasty
    (src/components/RastyTimeline.tsx): the active step that swipes and dots
    change on small screens, and the alternating placement of the steps on
    wide screens. */
module RastyTimeline {
  import opened Wrappers
  import opened JsNumber

  /** A step's day label and title; the paragraph text is not modelled. */
  datatype Step = Step(day: string, title: string)

  const Steps: seq<Step> := [
    Step("Deň 1", "Strata"),
    Step("Deň 2", "Dobrovoľníci"),
    Step("Deň 3", "Neúnavné pátranie"),
    Step("Deň 4", "Nočné hliadky"),
    Step("Deň 5", "Rozšírenie informácií"),
    Step("Deň 6", "Dronista a nájdenie")]

  const StepCount: nat := |Steps|

  /** The swipe threshold `TH`. */
  const Threshold: real := 40.0

  /** The day labels serve as keys on wide screens, so they are distinct. */
  lemma DaysDistinct(i: int, j: int)
    requires 0 <= i < StepCount && 0 <= j < StepCount && i != j
    ensures Steps[i].day != Steps[j].day
  {
    assert Steps[i].day[4] != Steps[j].day[4];
  }

  /** The step a swipe of `dx` leads to from step `i`: one step forwards for
      a leftward swipe, one back otherwise, clamped to the first and last
      step. */
  function SwipeTarget(i: int, dx: real): int {
    Clamp(i + (if dx < 0.0 then 1 else -1), 0, StepCount - 1)
  }

  /** A swipe stays on the timeline, moves by exactly one step when there is
      room, and is a no-op at the end it pushes against. */
  lemma SwipeTargetSpec(i: int, dx: real)
    requires 0 <= i < StepCount
    ensures 0 <= SwipeTarget(i, dx) < StepCount
    ensures dx < 0.0 ==> SwipeTarget(i, dx) == if i == StepCount - 1 then i else i + 1
    ensures dx >= 0.0 ==> SwipeTarget(i, dx) == if i == 0 then i else i - 1
    ensures Abs(SwipeTarget(i, dx) - i) <= 1
  {
  }

  /** A forward swipe undoes a backward one except at the first step, and a
      backward swipe undoes a forward one except at the last. */
  lemma SwipeBackAndForth(i: int)
    requires 0 <= i < StepCount
    ensures i > 0 ==> SwipeTarget(SwipeTarget(i, 0.0), -1.0) == i
    ensures i < StepCount - 1 ==> SwipeTarget(SwipeTarget(i, -1.0), 0.0) == i
  {
    SwipeTargetSpec(i, 0.0);
    SwipeTargetSpec(i, -1.0);
    SwipeTargetSpec(SwipeTarget(i, 0.0), -1.0);
    SwipeTargetSpec(SwipeTarget(i, -1.0), 0.0);
  }

  /** `top = i % 2 === 0`: on wide screens a step's card sits above the line
      (and the slot below stays invisible) when its index is even. */
  function AboveLine(i: nat): bool {
    i % 2 == 0
  }

  /** Neighbouring steps are on opposite sides of the line, the first one
      above. */
  lemma PlacementAlternates(i: nat)
    ensures AboveLine(0)
    ensures AboveLine(i) != AboveLine(i + 1)
  {
  }

  /** The mobile timeline's state: the `active` step and the `touchStartX`
      ref. */
  class Timeline {
    var active: int
    var touchStartX: Option<real>

    predicate Valid()
      reads this
    {
      0 <= active < StepCount
    }

    constructor ()
      ensures Valid() && active == 0 && touchStartX == None
    {
      active := 0;
      touchStartX := None;
    }

    /** A dot button selects its step. */
    method Dot(i: int)
      requires 0 <= i < StepCount
      modifies this
      ensures Valid() && active == i && touchStartX == old(touchStartX)
    {
      active := i;
    }

    method TouchStart(x: real)
      modifies this
      ensures touchStartX == Some(x) && active == old(active)
    {
      touchStartX := Some(x);
    }

    /** `onTouchEnd`: nothing without a recorded start; otherwise a swipe
        beyond the threshold moves to `SwipeTarget`, a shorter one keeps the
        step, and the start is cleared. */
    method TouchEnd(x: real)
      requires Valid()
      modifies this
      ensures Valid()
      ensures old(touchStartX).None? ==> unchanged(this)
      ensures old(touchStartX).Some? ==> touchStartX == None
      ensures old(touchStartX).Some? && AbsReal(x - old(touchStartX).value) <= Threshold ==> active == old(active)
      ensures old(touchStartX).Some? && AbsReal(x - old(touchStartX).value) > Threshold ==>
        active == SwipeTarget(old(active), x - old(touchStartX).value)
    {
      if touchStartX.Some? {
        var dx := x - touchStartX.value;
        if AbsReal(dx) > Threshold {
          SwipeTargetSpec(active, dx);
          active := SwipeTarget(active, dx);
        }
        touchStartX := None;
      }
    }
  }
}
