/** The interactive "how to proceed" section (src/components/Postup.tsx): the
    five steps anchored along a drawn path, the step dialog opened and closed
    by the markers, the keyboard and the overlay, and the vertical position
    of the dialog clamped into the viewport. The path's geometry and the
    section's box are inputs; the arrows' angles are not modelled. */
module Postup {
  import opened Wrappers
  import opened JsNumber

  /** A step: its number, its title, and where along the path (as a
      fraction of its length) its marker sits. */
  datatype Step = Step(n: nat, title: string, t: real, offsetY: real)

  const Steps: seq<Step> := [
    Step(1, "Ozvite sa nám čo najskôr", 0.08, 0.0),
    Step(2, "Zachovajte pokoj", 0.30, 0.0),
    Step(3, "Rozšírte pátranie", 0.55, 0.0),
    Step(4, "Vedomosť o strate", 0.80, 0.0),
    Step(5, "Príchod dronistu", 0.96, 0.0)]

  /** The steps are numbered 1 to 5 in order (the numbers are the markers'
      keys), and their anchors lie strictly inside the path, in order. */
  lemma StepsSpec(i: int, j: int)
    requires 0 <= i < |Steps| && 0 <= j < |Steps|
    ensures |Steps| == 5 && Steps[i].n == i + 1
    ensures 0.0 < Steps[i].t < 1.0
    ensures i < j ==> Steps[i].t < Steps[j].t
  {
  }

  /** The fraction of the `k`-th of the eight arrows, `0.08 + k * 0.11`. */
  function ArrowT(k: nat): real {
    0.08 + (k as real) * 0.11
  }

  /** All eight arrows lie strictly inside the path, evenly spaced from the
      first step's anchor. */
  lemma ArrowsOnPath(k: nat)
    requires k < 8
    ensures ArrowT(0) == Steps[0].t
    ensures 0.0 < ArrowT(k) < 1.0
    ensures k > 0 ==> ArrowT(k) - ArrowT(k - 1) == 0.11
  {
  }

  // ---------------------------------------------------------------------------
  // Geometry inputs
  // ---------------------------------------------------------------------------

  datatype Pt = Pt(x: real, y: real)

  /** What the SVG path reports: its total length and the point at a given
      length along it. */
  datatype PathGeometry = PathGeometry(length: real, pointAt: real -> Pt)

  /** The section's bounding box as far as the dialog needs it. */
  datatype Rect = Rect(top: real, height: real)

  /** `recomputePts`: one marker point per step, at its fraction of the
      path, shifted down by its offset. */
  function Points(p: PathGeometry): (pts: seq<Pt>)
    ensures |pts| == |Steps|
  {
    seq(|Steps|, i requires 0 <= i < |Steps| =>
      var pt := p.pointAt(p.length * Steps[i].t);
      Pt(pt.x, pt.y + Steps[i].offsetY))
  }

  /** The dialog's centre: the middle of the section in page coordinates. */
  function Center(r: Rect, scrollY: real): real {
    r.top + scrollY + r.height / 2.0
  }

  /** `Math.max(minTop, Math.min(center, maxTop))` with the bounds 80 pixels
      inside the viewport. */
  function ModalTop(center: real, scrollY: real, innerHeight: real): real {
    MaxReal(scrollY + 80.0, MinReal(center, scrollY + innerHeight - 80.0))
  }

  /** The dialog never starts less than 80 pixels below the top of the
      viewport; when the viewport is tall enough for the interval to be
      non-empty it lies within it, and a centre already inside is kept; in a
      shorter viewport the lower bound wins. */
  lemma ModalTopSpec(center: real, scrollY: real, innerHeight: real)
    ensures ModalTop(center, scrollY, innerHeight) >= scrollY + 80.0
    ensures innerHeight >= 160.0 ==> ModalTop(center, scrollY, innerHeight) <= scrollY + innerHeight - 80.0
    ensures scrollY + 80.0 <= center <= scrollY + innerHeight - 80.0 ==> ModalTop(center, scrollY, innerHeight) == center
    ensures innerHeight < 160.0 ==> ModalTop(center, scrollY, innerHeight) == scrollY + 80.0
    ensures center > scrollY + innerHeight - 80.0 && innerHeight >= 160.0 ==>
      ModalTop(center, scrollY, innerHeight) == scrollY + innerHeight - 80.0
  {
  }

  /** A marker's button: close the step when it is the open one, otherwise
      open it. */
  function Toggle(active: Option<nat>, i: nat): Option<nat> {
    if active == Some(i) then None else Some(i)
  }

  /** Clicking a marker leaves its step open or nothing open; clicking it
      twice restores the state when nothing or that step was open, and
      otherwise closes everything. */
  lemma ToggleSpec(active: Option<nat>, i: nat)
    ensures Toggle(active, i) == None <==> active == Some(i)
    ensures Toggle(active, i) != None ==> Toggle(active, i) == Some(i)
    ensures active.None? || active == Some(i) ==> Toggle(Toggle(active, i), i) == active
    ensures active.Some? && active != Some(i) ==> Toggle(Toggle(active, i), i) == None
  {
  }

  // ---------------------------------------------------------------------------
  // The component's state
  // ---------------------------------------------------------------------------

  /** `PostupInteractive`'s state: the marker points, the open step and the
      dialog's top. */
  class Section {
    var pts: seq<Pt>
    var active: Option<nat>
    var modalTop: Option<real>

    predicate Valid()
      reads this
    {
      active.Some? ==> active.value < |Steps|
    }

    /** The markers render once there is one point per step. */
    predicate MarkersShown()
      reads this
    {
      |pts| == |Steps|
    }

    /** The dialog renders when a step is open and its top is known. */
    predicate DialogShown()
      reads this
    {
      active.Some? && modalTop.Some?
    }

    constructor ()
      ensures Valid() && pts == [] && active == None && modalTop == None
      ensures !MarkersShown() && !DialogShown()
    {
      pts := [];
      active := None;
      modalTop := None;
    }

    /** `recomputePts`; without a path element nothing changes. */
    method RecomputePts(path: Option<PathGeometry>)
      modifies this
      ensures path.None? ==> unchanged(this)
      ensures path.Some? ==> pts == Points(path.value) && MarkersShown()
      ensures active == old(active) && modalTop == old(modalTop)
    {
      if path.Some? {
        pts := Points(path.value);
      }
    }

    /** `recomputeModalTop`; without the section element nothing changes. */
    method RecomputeModalTop(section: Option<Rect>, scrollY: real, innerHeight: real)
      modifies this
      ensures section.None? ==> unchanged(this)
      ensures section.Some? ==> modalTop == Some(ModalTop(Center(section.value, scrollY), scrollY, innerHeight))
      ensures section.Some? && innerHeight >= 160.0 ==>
        scrollY + 80.0 <= modalTop.value <= scrollY + innerHeight - 80.0
      ensures pts == old(pts) && active == old(active)
    {
      if section.Some? {
        var center := Center(section.value, scrollY);
        ModalTopSpec(center, scrollY, innerHeight);
        modalTop := Some(ModalTop(center, scrollY, innerHeight));
      }
    }

    /** The marker of step `i` (only rendered once the markers show). */
    method ClickMarker(i: nat)
      requires Valid() && MarkersShown() && i < |Steps|
      modifies this
      ensures Valid()
      ensures active == Toggle(old(active), i)
      ensures pts == old(pts) && modalTop == old(modalTop)
    {
      active := if active == Some(i) then None else Some(i);
    }

    /** The window's `keydown` handler: only Escape closes the dialog. */
    method Key(key: string)
      requires Valid()
      modifies this
      ensures Valid()
      ensures key == "Escape" ==> active == None
      ensures key != "Escape" ==> active == old(active)
      ensures pts == old(pts) && modalTop == old(modalTop)
    {
      if key == "Escape" {
        active := None;
      }
    }

    /** The overlay, the card itself and its close button all close the
        dialog. */
    method Close()
      modifies this
      ensures Valid() && active == None && !DialogShown()
      ensures pts == old(pts) && modalTop == old(modalTop)
    {
      active := None;
    }
  }
}
