/** The photo gallery (src/components/PhotoCarousel.tsx): the slide index and
    direction that the arrows, the bullets, the keyboard, the swipe handler and
    the timer change, the info panel that every change of slide hides, and the
    aspect rule. */
module PhotoCarousel {
  import opened Wrappers
  import opened JsNumber

  /** A slide's intrinsic size; the source, text and description are not
      modelled. */
  datatype Slide = Slide(w: nat, h: nat)

  /** The nine slides, all 1600 by 1067. */
  const Slides: seq<Slide> := [
    Slide(1600, 1067), Slide(1600, 1067), Slide(1600, 1067),
    Slide(1600, 1067), Slide(1600, 1067), Slide(1600, 1067),
    Slide(1600, 1067), Slide(1600, 1067), Slide(1600, 1067)]

  const SlideCount: nat := |Slides|

  // ---------------------------------------------------------------------------
  // Index arithmetic
  // ---------------------------------------------------------------------------

  /** `(i + 1) % slides.length`. */
  function NextIndex(i: int): int {
    Rem(i + 1, SlideCount)
  }

  /** `(i - 1 + slides.length) % slides.length`. */
  function PrevIndex(i: int): int {
    Rem(i - 1 + SlideCount, SlideCount)
  }

  /** From an index in range both steps stay in range, move by one place
      round the cycle, and undo each other. */
  lemma StepsSpec(i: int)
    requires 0 <= i < SlideCount
    ensures 0 <= NextIndex(i) < SlideCount && 0 <= PrevIndex(i) < SlideCount
    ensures NextIndex(i) == if i == SlideCount - 1 then 0 else i + 1
    ensures PrevIndex(i) == if i == 0 then SlideCount - 1 else i - 1
    ensures PrevIndex(NextIndex(i)) == i && NextIndex(PrevIndex(i)) == i
  {
    ModUnique(i + 1, SlideCount, if i == SlideCount - 1 then 1 else 0, if i == SlideCount - 1 then 0 else i + 1);
    ModUnique(i - 1 + SlideCount, SlideCount, if i == 0 then 0 else 1, if i == 0 then SlideCount - 1 else i - 1);
    var n := NextIndex(i);
    var p := PrevIndex(i);
    ModUnique(n - 1 + SlideCount, SlideCount, if n == 0 then 0 else 1, if n == 0 then SlideCount - 1 else n - 1);
    ModUnique(p + 1, SlideCount, if p == SlideCount - 1 then 1 else 0, if p == SlideCount - 1 then 0 else p + 1);
  }

  /** A bullet's direction: forwards only to a later slide. */
  function BulletDir(target: int, index: int): int {
    if target > index then 1 else -1
  }

  /** The `enter` variant's horizontal offset for a direction. */
  function EnterX(dir: int): int {
    if dir == 1 then 40 else -40
  }

  /** The `exit` variant's horizontal offset for a direction. */
  function ExitX(dir: int): int {
    if dir == 1 then -40 else 40
  }

  /** A slide comes in 40 pixels on the side the direction points to and the
      old one leaves by 40 pixels on the other side. */
  lemma SlideOffsets(dir: int)
    requires dir == 1 || dir == -1
    ensures EnterX(dir) == 40 * dir
    ensures ExitX(dir) == -EnterX(dir)
  {
  }

  // ---------------------------------------------------------------------------
  // Aspect rule
  // ---------------------------------------------------------------------------

  datatype Aspect = FourByThree | SixteenByNine

  /** `ratio > 0.8 ? "aspect-[4/3]" : "aspect-[16/9]"` with `ratio = h / w`. */
  function AspectOf(s: Slide): Aspect
    requires s.w > 0
  {
    if (s.h as real) / (s.w as real) > 0.8 then FourByThree else SixteenByNine
  }

  /** The ratio test in integers: 4:3 exactly when `5h > 4w`. */
  lemma AspectByCrossMultiplying(s: Slide)
    requires s.w > 0
    ensures AspectOf(s) == FourByThree <==> 5 * s.h > 4 * s.w
  {
    var r := (s.h as real) / (s.w as real);
    assert r * (s.w as real) == s.h as real;
    if r > 0.8 {
      assert (s.h as real) > 0.8 * (s.w as real);
    } else {
      assert (s.h as real) <= 0.8 * (s.w as real);
    }
  }

  /** Every slide of the gallery is landscape enough for 16:9. */
  lemma GalleryIsWide(i: int)
    requires 0 <= i < SlideCount
    ensures Slides[i].w > 0 && AspectOf(Slides[i]) == SixteenByNine
  {
    AspectByCrossMultiplying(Slides[i]);
  }

  // ---------------------------------------------------------------------------
  // The component's state
  // ---------------------------------------------------------------------------

  /** `PhotoCarousel`'s state and refs. The interval is (re)started by the
      effect on `isHover`, so it runs exactly while the pointer is outside. */
  class Gallery {
    var index: int
    var dir: int
    var isHover: bool
    var showInfo: bool
    var touchStartX: Option<real>

    predicate Valid()
      reads this
    {
      0 <= index < SlideCount && (dir == 1 || dir == -1)
    }

    /** Whether the auto-advance interval is registered. */
    predicate TimerRunning()
      reads this
    {
      !isHover
    }

    constructor ()
      ensures Valid()
      ensures index == 0 && dir == 1 && !isHover && !showInfo && touchStartX == None
    {
      index := 0;
      dir := 1;
      isHover := false;
      showInfo := false;
      touchStartX := None;
    }

    /** `setIndex` followed by the effect on `index`, which hides the info
        panel only when the index really changed. */
    method SetIndex(i: int)
      requires 0 <= i < SlideCount
      modifies this
      ensures index == i
      ensures showInfo == if i != old(index) then false else old(showInfo)
      ensures dir == old(dir) && isHover == old(isHover) && touchStartX == old(touchStartX)
    {
      if i != index {
        showInfo := false;
      }
      index := i;
    }

    /** `next`: arrow button, ArrowRight, a left swipe, a timer tick. */
    method GoNext()
      requires Valid()
      modifies this
      ensures Valid()
      ensures dir == 1 && index == NextIndex(old(index)) && !showInfo
      ensures isHover == old(isHover) && touchStartX == old(touchStartX)
    {
      StepsSpec(index);
      dir := 1;
      SetIndex(NextIndex(index));
    }

    /** `prev`: arrow button, ArrowLeft, a right swipe. */
    method GoPrev()
      requires Valid()
      modifies this
      ensures Valid()
      ensures dir == -1 && index == PrevIndex(old(index)) && !showInfo
      ensures isHover == old(isHover) && touchStartX == old(touchStartX)
    {
      StepsSpec(index);
      dir := -1;
      SetIndex(PrevIndex(index));
    }

    /** A bullet: jump to `target`, forwards only when it lies after the
        current slide (clicking the current bullet sets `dir` to -1 and keeps
        the info panel as it is). */
    method Bullet(target: int)
      requires Valid() && 0 <= target < SlideCount
      modifies this
      ensures Valid()
      ensures index == target && dir == BulletDir(target, old(index))
      ensures showInfo == if target != old(index) then false else old(showInfo)
      ensures isHover == old(isHover) && touchStartX == old(touchStartX)
    {
      dir := if target > index then 1 else -1;
      SetIndex(target);
    }

    /** The window's `keydown` handler. */
    method Key(key: string)
      requires Valid()
      modifies this
      ensures Valid()
      ensures key == "ArrowRight" ==> index == NextIndex(old(index)) && dir == 1 && !showInfo
      ensures key == "ArrowLeft" ==> index == PrevIndex(old(index)) && dir == -1 && !showInfo
      ensures key == "Escape" ==> index == old(index) && dir == old(dir) && !showInfo
      ensures key != "ArrowRight" && key != "ArrowLeft" && key != "Escape" ==> unchanged(this)
      ensures isHover == old(isHover) && touchStartX == old(touchStartX)
    {
      if key == "ArrowRight" {
        GoNext();
      }
      if key == "ArrowLeft" {
        GoPrev();
      }
      if key == "Escape" {
        showInfo := false;
      }
    }

    /** The info button. */
    method ToggleInfo()
      modifies this
      ensures showInfo == !old(showInfo)
      ensures index == old(index) && dir == old(dir) && isHover == old(isHover) && touchStartX == old(touchStartX)
    {
      showInfo := !showInfo;
    }

    /** Either close button or the backdrop of the bottom sheet. */
    method CloseInfo()
      modifies this
      ensures !showInfo
      ensures index == old(index) && dir == old(dir) && isHover == old(isHover) && touchStartX == old(touchStartX)
    {
      showInfo := false;
    }

    method MouseEnter()
      modifies this
      ensures isHover && !TimerRunning()
      ensures index == old(index) && dir == old(dir) && showInfo == old(showInfo) && touchStartX == old(touchStartX)
    {
      isHover := true;
    }

    method MouseLeave()
      modifies this
      ensures !isHover && TimerRunning()
      ensures index == old(index) && dir == old(dir) && showInfo == old(showInfo) && touchStartX == old(touchStartX)
    {
      isHover := false;
    }

    /** The interval fires; while the pointer hovers there is no interval. */
    method Tick()
      requires Valid()
      modifies this
      ensures Valid()
      ensures !old(TimerRunning()) ==> unchanged(this)
      ensures old(TimerRunning()) ==> index == NextIndex(old(index)) && dir == 1 && !showInfo
      ensures isHover == old(isHover) && touchStartX == old(touchStartX)
    {
      if !isHover {
        GoNext();
      }
    }

    method TouchStart(x: real)
      modifies this
      ensures touchStartX == Some(x)
      ensures index == old(index) && dir == old(dir) && isHover == old(isHover) && showInfo == old(showInfo)
    {
      touchStartX := Some(x);
    }

    /** `onTouchEnd`: without a recorded start nothing happens; a move of
        more than 40 pixels goes to the next slide (leftwards) or the
        previous one (rightwards); the start is cleared either way. */
    method TouchEnd(x: real)
      requires Valid()
      modifies this
      ensures Valid()
      ensures old(touchStartX).None? ==> unchanged(this)
      ensures old(touchStartX).Some? ==> touchStartX == None && isHover == old(isHover)
      ensures old(touchStartX).Some? && AbsReal(x - old(touchStartX).value) <= 40.0 ==>
        index == old(index) && dir == old(dir) && showInfo == old(showInfo)
      ensures old(touchStartX).Some? && x - old(touchStartX).value < -40.0 ==> index == NextIndex(old(index)) && dir == 1
      ensures old(touchStartX).Some? && x - old(touchStartX).value > 40.0 ==> index == PrevIndex(old(index)) && dir == -1
    {
      if touchStartX.Some? {
        var dx := x - touchStartX.value;
        if AbsReal(dx) > 40.0 {
          if dx < 0.0 {
            GoNext();
          } else {
            GoPrev();
          }
        }
        touchStartX := None;
      }
    }

    /** The aspect class of the slide on show. */
    function CurrentAspect(): Aspect
      reads this
      requires Valid()
    {
      GalleryIsWide(index);
      AspectOf(Slides[index])
    }
  }
}
