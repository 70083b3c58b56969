/** The team carousel (src/components/TeamGrid.tsx): index arithmetic on the
    cycle of members, which cards the desktop view draws and how, and the
    state the buttons, the swipe handler and the auto-advance timer change. */
module TeamGrid {
  import opened Wrappers
  import opened JsNumber

  /** `members.length`. */
  const MemberCount: nat := 6

  // ---------------------------------------------------------------------------
  // wrap, next, prev
  // ---------------------------------------------------------------------------

  /** `((i % len) + len) % len` with JavaScript's truncating `%`: the
      non-negative residue of `i`, whatever the sign of `i`. */
  function Wrap(i: int, len: int): (r: int)
    requires len > 0
    ensures r == i % len
  {
    var w := Rem(Rem(i, len) + len, len);
    assert w == i % len by {
      if i >= 0 {
        ModUnique(i, len, i / len, i % len);
        ModUnique(i % len + len, len, 1, i % len);
      } else {
        var q, r := (-i) / len, (-i) % len;
        ModUnique(-i, len, q, r);
        if r == 0 {
          ModUnique(i, len, -q, 0);
          ModUnique(len, len, 1, 0);
        } else {
          ModUnique(i, len, -q - 1, len - r);
          ModUnique(len - r, len, 0, len - r);
        }
      }
    }
    w
  }

  /** The result lies in `[0, len)`, leaves an index already in range as it
      is, and differs from `i` by a multiple of `len`. */
  lemma WrapSpec(i: int, len: int)
    requires len > 0
    ensures 0 <= Wrap(i, len) < len
    ensures 0 <= i < len ==> Wrap(i, len) == i
    ensures (i - Wrap(i, len)) % len == 0
  {
    assert i == len * (i / len) + i % len;
    ModUnique(i - i % len, len, i / len, 0);
    if 0 <= i < len {
      ModUnique(i, len, 0, i);
    }
  }

  function Next(i: int): int {
    Wrap(i + 1, MemberCount)
  }

  function Prev(i: int): int {
    Wrap(i - 1, MemberCount)
  }

  /** `next` moves one card on, from the last back to the first. */
  lemma NextValue(i: int)
    requires 0 <= i < MemberCount
    ensures Next(i) == if i == MemberCount - 1 then 0 else i + 1
  {
    if i == MemberCount - 1 {
      ModUnique(i + 1, MemberCount, 1, 0);
    } else {
      ModUnique(i + 1, MemberCount, 0, i + 1);
    }
  }

  /** `prev` moves one card back, from the first round to the last. */
  lemma PrevValue(i: int)
    requires 0 <= i < MemberCount
    ensures Prev(i) == if i == 0 then MemberCount - 1 else i - 1
  {
    if i == 0 {
      ModUnique(-1, MemberCount, -1, MemberCount - 1);
    } else {
      ModUnique(i - 1, MemberCount, 0, i - 1);
    }
  }

  /** `prev` undoes `next` and `next` undoes `prev` on every index in range. */
  lemma NextPrevInverse(i: int)
    requires 0 <= i < MemberCount
    ensures 0 <= Next(i) < MemberCount && 0 <= Prev(i) < MemberCount
    ensures Prev(Next(i)) == i && Next(Prev(i)) == i
  {
    NextValue(i);
    PrevValue(i);
    PrevValue(Next(i));
    NextValue(Prev(i));
  }

  // ---------------------------------------------------------------------------
  // getDelta and the visible window
  // ---------------------------------------------------------------------------

  /** `getDelta`: the signed distance from the active card to card `i` the
      short way round the cycle, the positive side winning a tie. */
  function Delta(i: int, active: int, len: int): int
    requires len > 0
  {
    var right := Wrap(i - active, len);
    var left := right - len;
    if Abs(left) < right then left else right
  }

  /** The delta is congruent to `i - active`, lies in `(-len/2, len/2]`, and is
      0 exactly when card `i` is the active card (modulo `len`). */
  lemma DeltaSpec(i: int, active: int, len: int)
    requires len > 0
    ensures (Delta(i, active, len) - (i - active)) % len == 0
    ensures -len < 2 * Delta(i, active, len) <= len
    ensures Delta(i, active, len) == 0 <==> (i - active) % len == 0
  {
    var x := i - active;
    var right := Wrap(x, len);
    var q := x / len;
    assert x == len * q + right;
    ModUnique(right - x, len, -q, 0) by {
      assert right - x == len * (-q);
    }
    if Abs(right - len) < right {
      assert Delta(i, active, len) == right - len;
      ModUnique(right - len - x, len, -q - 1, 0) by {
        assert right - len - x == len * (-q - 1);
      }
    } else {
      assert Delta(i, active, len) == right;
    }
  }

  /** The delta is the only value with those two properties: an independent
      characterisation of `getDelta`. */
  lemma DeltaUnique(i: int, active: int, len: int, e: int)
    requires len > 0
    requires (e - (i - active)) % len == 0
    requires -len < 2 * e <= len
    ensures e == Delta(i, active, len)
  {
    var d := Delta(i, active, len);
    DeltaSpec(i, active, len);
    ModSubtract(e - (i - active), d - (i - active), len);
    assert (e - (i - active)) - (d - (i - active)) == e - d;
    SmallMultiple(e - d, len);
  }

  /** `sideCount`: cards on each side of the active one. */
  function SideCount(winW: int): nat {
    if winW >= 1024 then 2 else 1
  }

  /** Card `i` is drawn when `|delta| <= sideCount`. */
  predicate Visible(i: int, active: int, winW: int) {
    Abs(Delta(i, active, MemberCount)) <= SideCount(winW)
  }

  /** The integers `lo` to `hi - 1`, ascending. */
  function Range(lo: int, hi: int): (r: seq<int>)
    decreases hi - lo
  {
    if lo >= hi then [] else Range(lo, hi - 1) + [hi - 1]
  }

  lemma {:induction false} RangeSpec(lo: int, hi: int)
    requires lo <= hi
    ensures |Range(lo, hi)| == hi - lo
    ensures forall i :: 0 <= i < |Range(lo, hi)| ==> Range(lo, hi)[i] == lo + i
    ensures forall k :: k in Range(lo, hi) <==> lo <= k < hi
    decreases hi - lo
  {
    if lo < hi {
      RangeSpec(lo, hi - 1);
    }
  }

  /** `members.map(...)` returning null for the cards outside the window:
      the drawn cards, in member order. */
  function DrawnAmong(cards: seq<int>, active: int, winW: int): seq<int> {
    if cards == [] then []
    else if Visible(cards[0], active, winW) then [cards[0]] + DrawnAmong(cards[1..], active, winW)
    else DrawnAmong(cards[1..], active, winW)
  }

  function VisibleCards(active: int, winW: int): seq<int> {
    DrawnAmong(Range(0, MemberCount), active, winW)
  }

  predicate Increasing(xs: seq<int>) {
    forall i, j :: 0 <= i < j < |xs| ==> xs[i] < xs[j]
  }

  /** Drawing keeps the cards in order and keeps exactly the visible ones. */
  lemma {:induction false} DrawnAmongSpec(cards: seq<int>, active: int, winW: int)
    requires Increasing(cards)
    ensures Increasing(DrawnAmong(cards, active, winW))
    ensures forall i :: i in DrawnAmong(cards, active, winW) <==> i in cards && Visible(i, active, winW)
    ensures forall j :: 0 <= j < |DrawnAmong(cards, active, winW)| ==> cards[0] <= DrawnAmong(cards, active, winW)[j]
  {
    if cards != [] {
      DrawnAmongSpec(cards[1..], active, winW);
      var rest := DrawnAmong(cards[1..], active, winW);
      if |cards| > 1 {
        assert cards[0] < cards[1];
      }
    }
  }

  /** A sequence without repetitions has as many elements as its set. */
  lemma {:induction false} IncreasingCard(xs: seq<int>)
    requires Increasing(xs)
    ensures |set x | x in xs| == |xs|
  {
    if xs != [] {
      var init := xs[..|xs| - 1];
      IncreasingCard(init);
      forall k | 0 <= k < |init| ensures init[k] < xs[|xs| - 1] {
        assert init[k] == xs[k];
      }
      assert xs[|xs| - 1] !in init;
      assert xs[|xs| - 1] !in (set x | x in init);
      assert xs == init + [xs[|xs| - 1]];
      assert (set x | x in xs) == (set x | x in init) + {xs[|xs| - 1]};
    }
  }

  /** An injective map from the elements of `xs` into `b` needs `b` at least
      as large as `xs`. */
  lemma {:induction false} InjectionCard(xs: seq<int>, b: set<int>, f: int -> int)
    requires Increasing(xs)
    requires forall x :: x in xs ==> f(x) in b
    requires forall x, y :: x in xs && y in xs && f(x) == f(y) ==> x == y
    ensures |xs| <= |b|
  {
    if xs != [] {
      var y := f(xs[0]);
      assert xs[0] in xs;
      forall x | x in xs[1..] ensures f(x) in b - {y} {
        assert x != xs[0];
      }
      InjectionCard(xs[1..], b - {y}, f);
      assert |b - {y}| == |b| - 1;
    }
  }

  /** Two cards in range with the same delta are the same card. */
  lemma DeltaInjective(i: int, j: int, active: int)
    requires 0 <= i < MemberCount && 0 <= j < MemberCount
    requires Delta(i, active, MemberCount) == Delta(j, active, MemberCount)
    ensures i == j
  {
    var d := Delta(i, active, MemberCount);
    DeltaSpec(i, active, MemberCount);
    DeltaSpec(j, active, MemberCount);
    ModSubtract(d - (j - active), d - (i - active), MemberCount);
    assert (d - (j - active)) - (d - (i - active)) == i - j;
    SmallMultiple(i - j, MemberCount);
  }

  /** The card `k` steps from the active one has delta `k` when `|k| <= 2`. */
  lemma StepDelta(active: int, k: int)
    requires -2 <= k <= 2
    ensures 0 <= Wrap(active + k, MemberCount) < MemberCount
    ensures Delta(Wrap(active + k, MemberCount), active, MemberCount) == k
  {
    var i := Wrap(active + k, MemberCount);
    WrapSpec(active + k, MemberCount);
    assert k - (i - active) == active + k - i;
    DeltaUnique(i, active, MemberCount, k);
  }

  /** The deltas a window of `sideCount` cards on each side allows. */
  function Window(winW: int): seq<int> {
    Range(-(SideCount(winW) as int), SideCount(winW) + 1)
  }

  lemma VisibleAtMost(active: int, winW: int)
    ensures |VisibleCards(active, winW)| <= |Window(winW)|
  {
    var v := VisibleCards(active, winW);
    var w := Window(winW);
    RangeSpec(0, MemberCount);
    RangeSpec(-(SideCount(winW) as int), SideCount(winW) + 1);
    DrawnAmongSpec(Range(0, MemberCount), active, winW);
    IncreasingCard(w);
    var toDelta := i => Delta(i, active, MemberCount);
    forall i | i in v ensures toDelta(i) in (set x | x in w) {
    }
    forall i, j | i in v && j in v && toDelta(i) == toDelta(j) ensures i == j {
      DeltaInjective(i, j, active);
    }
    InjectionCard(v, (set x | x in w), toDelta);
  }

  /** The card `k` steps away, for `k` in the window, is drawn. */
  lemma WindowCardDrawn(active: int, winW: int, k: int)
    requires k in Window(winW)
    ensures Wrap(active + k, MemberCount) in VisibleCards(active, winW)
  {
    RangeSpec(0, MemberCount);
    RangeSpec(-(SideCount(winW) as int), SideCount(winW) + 1);
    DrawnAmongSpec(Range(0, MemberCount), active, winW);
    StepDelta(active, k);
  }

  lemma VisibleIncreasing(active: int, winW: int)
    ensures Increasing(VisibleCards(active, winW))
  {
    RangeSpec(0, MemberCount);
    DrawnAmongSpec(Range(0, MemberCount), active, winW);
  }

  lemma StepInjective(active: int, k: int, l: int)
    requires -2 <= k <= 2 && -2 <= l <= 2
    requires Wrap(active + k, MemberCount) == Wrap(active + l, MemberCount)
    ensures k == l
  {
    StepDelta(active, k);
    StepDelta(active, l);
  }

  /** The window's deltas lie within two steps. */
  lemma WindowBounds(winW: int, k: int)
    requires k in Window(winW)
    ensures -2 <= k <= 2
  {
    RangeSpec(-(SideCount(winW) as int), SideCount(winW) + 1);
  }

  lemma WindowIncreasing(winW: int)
    ensures Increasing(Window(winW))
  {
    RangeSpec(-(SideCount(winW) as int), SideCount(winW) + 1);
  }

  /** Every step in the window lands on a drawn card, and different steps
      on different cards. */
  lemma WindowToVisible(active: int, winW: int)
    ensures forall k :: k in Window(winW) ==> Wrap(active + k, MemberCount) in VisibleCards(active, winW)
    ensures forall k, l :: k in Window(winW) && l in Window(winW) && Wrap(active + k, MemberCount) == Wrap(active + l, MemberCount) ==> k == l
  {
    forall k | k in Window(winW) ensures Wrap(active + k, MemberCount) in VisibleCards(active, winW) {
      WindowCardDrawn(active, winW, k);
    }
    forall k, l | k in Window(winW) && l in Window(winW) && Wrap(active + k, MemberCount) == Wrap(active + l, MemberCount)
      ensures k == l
    {
      WindowBounds(winW, k);
      WindowBounds(winW, l);
      StepInjective(active, k, l);
    }
  }

  /** Steps that land injectively among the cards of `v` are no more
      numerous than those cards. */
  lemma StepsIntoCards(w: seq<int>, v: seq<int>, active: int)
    requires Increasing(w) && Increasing(v)
    requires forall k :: k in w ==> Wrap(active + k, MemberCount) in v
    requires forall k, l :: k in w && l in w && Wrap(active + k, MemberCount) == Wrap(active + l, MemberCount) ==> k == l
    ensures |w| <= |v|
  {
    IncreasingCard(v);
    var toCard := k => Wrap(active + k, MemberCount);
    assert forall k :: k in w ==> toCard(k) in (set x | x in v);
    InjectionCard(w, (set x | x in v), toCard);
  }

  lemma VisibleAtLeast(active: int, winW: int)
    ensures |Window(winW)| <= |VisibleCards(active, winW)|
  {
    VisibleIncreasing(active, winW);
    WindowIncreasing(winW);
    WindowToVisible(active, winW);
    StepsIntoCards(Window(winW), VisibleCards(active, winW), active);
  }

  /** Among the cards in range, only the active one has delta 0. */
  lemma ZeroDeltaIsActive(i: int, active: int)
    requires 0 <= i < MemberCount && 0 <= active < MemberCount
    ensures Delta(i, active, MemberCount) == 0 <==> i == active
  {
    DeltaSpec(i, active, MemberCount);
    if Delta(i, active, MemberCount) == 0 {
      SmallMultiple(i - active, MemberCount);
    }
  }

  /** Exactly `2 * sideCount + 1` cards are drawn, in member order, among
      them the active one, and it is the only one with delta 0. */
  lemma VisibleCount(active: int, winW: int)
    requires 0 <= active < MemberCount
    ensures |VisibleCards(active, winW)| == 2 * SideCount(winW) + 1
    ensures Increasing(VisibleCards(active, winW))
    ensures active in VisibleCards(active, winW)
    ensures forall i :: i in VisibleCards(active, winW) ==> (Delta(i, active, MemberCount) == 0 <==> i == active)
  {
    RangeSpec(-(SideCount(winW) as int), SideCount(winW) + 1);
    RangeSpec(0, MemberCount);
    DrawnAmongSpec(Range(0, MemberCount), active, winW);
    VisibleAtMost(active, winW);
    VisibleAtLeast(active, winW);
    forall i | i in VisibleCards(active, winW) ensures Delta(i, active, MemberCount) == 0 <==> i == active {
      ZeroDeltaIsActive(i, active);
    }
    ZeroDeltaIsActive(active, active);
  }

  // ---------------------------------------------------------------------------
  // How a drawn card looks
  // ---------------------------------------------------------------------------

  /** `z`: 60 for the active card, 40 next to it, 30 further out. */
  function ZIndex(d: int): int {
    if d == 0 then 60 else if Abs(d) == 1 then 40 else 30
  }

  function Scale(d: int): real {
    if d == 0 then 1.0 else 0.92
  }

  function Opacity(d: int): real {
    if d == 0 then 1.0 else 0.6
  }

  /** Only the active card is at full scale and opacity and on top; a card
      nearer the active one is never stacked below one further away. */
  lemma CardLook(d: int, e: int)
    ensures ZIndex(d) == 60 <==> d == 0
    ensures Scale(d) == 1.0 <==> d == 0
    ensures Opacity(d) == 1.0 <==> d == 0
    ensures Abs(d) <= Abs(e) ==> ZIndex(d) >= ZIndex(e)
  {
  }

  const ActiveW: real := 900.0
  const SideW: real := 260.0
  const SafeGap: real := 40.0
  const SideGap: real := 18.0
  const Margin: real := 16.0

  /** The horizontal offsets `positions["-2"]` to `positions["2"]`. */
  datatype Positions = Positions(farLeft: real, left: real, center: real, right: real, farRight: real)

  /** `positions` for a window width. */
  function PositionsFor(winW: real): Positions {
    var half := winW / 2.0;
    var leftEdgeCenter := -half + Margin + SideW / 2.0;
    var rightEdgeCenter := half - Margin - SideW / 2.0;
    var leftInnerByEdge := leftEdgeCenter + SideW + SideGap;
    var rightInnerByEdge := rightEdgeCenter - SideW - SideGap;
    var leftInnerBySafe := -(ActiveW / 2.0) - SafeGap - SideW / 2.0;
    var rightInnerBySafe := ActiveW / 2.0 + SafeGap + SideW / 2.0;
    Positions(leftEdgeCenter, MinReal(leftInnerByEdge, leftInnerBySafe), 0.0,
              MaxReal(rightInnerByEdge, rightInnerBySafe), rightEdgeCenter)
  }

  /** The offset of a card from its delta; any delta outside -2..2 falls to
      `positions["0"]`. */
  function XOffset(p: Positions, d: int): real {
    if d == -2 then p.farLeft
    else if d == -1 then p.left
    else if d == 1 then p.right
    else if d == 2 then p.farRight
    else p.center
  }

  /** The layout is mirror-symmetric: a card at delta `-d` sits opposite the
      card at delta `d`, and the active card is centred. */
  lemma PositionsSymmetric(winW: real, d: int)
    ensures XOffset(PositionsFor(winW), -d) == -XOffset(PositionsFor(winW), d)
    ensures XOffset(PositionsFor(winW), 0) == 0.0
  {
  }

  /** The inner side cards always clear the active card by the safe gap; the
      outer card lies beyond the inner one only when the window is wider than
      1532 pixels, and otherwise overlaps it or sits inside it. */
  lemma PositionsOrder(winW: real)
    ensures PositionsFor(winW).left <= -620.0 && PositionsFor(winW).right >= 620.0
    ensures PositionsFor(winW).farLeft < PositionsFor(winW).left <==> winW > 1532.0
    ensures PositionsFor(winW).right < PositionsFor(winW).farRight <==> winW > 1532.0
  {
  }

  // ---------------------------------------------------------------------------
  // The component's state
  // ---------------------------------------------------------------------------

  /** `TeamGrid`'s state: the active member, whether the user has interacted,
      the window width, and the `startX` ref of the mobile view. `Mobile` is
      declared inside `TeamGrid`, so every re-render of `TeamGrid` mounts a
      fresh `Mobile` and its `startX` starts again from null. */
  class TeamCarousel {
    var active: int
    var hasInteracted: bool
    var winW: int
    var startX: Option<real>

    predicate Valid()
      reads this
    {
      0 <= active < MemberCount
    }

    constructor (w: int)
      ensures Valid()
      ensures active == 0 && !hasInteracted && winW == w && startX == None
    {
      active := 0;
      hasInteracted := false;
      winW := w;
      startX := None;
    }

    /** The "next" button and a left swipe. */
    method GoNext()
      requires Valid()
      modifies this
      ensures Valid()
      ensures active == Next(old(active)) && hasInteracted
      ensures winW == old(winW) && startX == None
    {
      WrapSpec(active + 1, MemberCount);
      active := Wrap(active + 1, MemberCount);
      hasInteracted := true;
      startX := None;
    }

    /** The "previous" button and a right swipe. */
    method GoPrev()
      requires Valid()
      modifies this
      ensures Valid()
      ensures active == Prev(old(active)) && hasInteracted
      ensures winW == old(winW) && startX == None
    {
      WrapSpec(active - 1, MemberCount);
      active := Wrap(active - 1, MemberCount);
      hasInteracted := true;
      startX := None;
    }

    /** A dot (mobile) or a side card (desktop) is clicked. When the user
        has already interacted and the card is the active one, neither state
        setter changes anything, `TeamGrid` does not re-render, and the
        mobile view keeps its touch start; otherwise the re-render clears
        it. */
    method Select(i: int)
      requires 0 <= i < MemberCount
      modifies this
      ensures Valid()
      ensures active == i && hasInteracted
      ensures startX == if old(hasInteracted) && i == old(active) then old(startX) else None
      ensures winW == old(winW)
    {
      if !(hasInteracted && i == active) {
        startX := None;
      }
      active := i;
      hasInteracted := true;
    }

    /** The 10-second interval fires. It is registered only while the user
        has not interacted. */
    method Tick()
      requires Valid()
      modifies this
      ensures Valid()
      ensures old(hasInteracted) ==> unchanged(this)
      ensures !old(hasInteracted) ==> active == Next(old(active)) && !hasInteracted && startX == None
      ensures winW == old(winW)
    {
      if !hasInteracted {
        WrapSpec(active + 1, MemberCount);
        active := Wrap(active + 1, MemberCount);
        startX := None;
      }
    }

    /** A `resize` event; a new width re-renders the component. */
    method Resize(w: int)
      modifies this
      ensures winW == w && active == old(active) && hasInteracted == old(hasInteracted)
      ensures startX == if w == old(winW) then old(startX) else None
    {
      if w != winW {
        winW := w;
        startX := None;
      }
    }

    method TouchStart(x: real)
      modifies this
      ensures startX == Some(x)
      ensures active == old(active) && hasInteracted == old(hasInteracted) && winW == old(winW)
    {
      startX := Some(x);
    }

    /** `onTouchEnd`: without a recorded start nothing happens; otherwise the
        start is cleared and a horizontal move of more than 40 pixels goes
        to the next member (leftwards) or the previous one (rightwards). */
    method TouchEnd(x: real)
      requires Valid()
      modifies this
      ensures Valid()
      ensures old(startX).None? ==> unchanged(this)
      ensures old(startX).Some? ==> startX == None && winW == old(winW)
      ensures old(startX).Some? && AbsReal(x - old(startX).value) <= 40.0 ==>
        active == old(active) && hasInteracted == old(hasInteracted)
      ensures old(startX).Some? && x - old(startX).value < -40.0 ==> active == Next(old(active)) && hasInteracted
      ensures old(startX).Some? && x - old(startX).value > 40.0 ==> active == Prev(old(active)) && hasInteracted
    {
      if startX.Some? {
        var dx := x - startX.value;
        startX := None;
        if AbsReal(dx) > 40.0 {
          if dx < 0.0 {
            GoNext();
          } else {
            GoPrev();
          }
        }
      }
    }
  }
}
