/** The page transition (src/components/PageTransition.tsx): the slide
    direction worked out from the page order and the previous path, the
    offsets it gives the entering and leaving page, and the remembered
    previous path. */
module PageTransition {
  import opened Wrappers
  import opened JsNumber

  /** The pages in slide order. */
  const Order: seq<string> := ["/", "/nas-tim"]

  /** `xs.indexOf(x)`: the first position of `x`, or -1. */
  function IndexOf(xs: seq<string>, x: string): int {
    if xs == [] then -1
    else if xs[0] == x then 0
    else var k := IndexOf(xs[1..], x); if k < 0 then -1 else k + 1
  }

  /** `indexOf` finds the first occurrence, and -1 means absent. */
  lemma {:induction false} IndexOfSpec(xs: seq<string>, x: string)
    ensures -1 <= IndexOf(xs, x) < |xs|
    ensures IndexOf(xs, x) == -1 <==> x !in xs
    ensures IndexOf(xs, x) >= 0 ==> xs[IndexOf(xs, x)] == x && x !in xs[..IndexOf(xs, x)]
  {
    if xs != [] && xs[0] != x {
      IndexOfSpec(xs[1..], x);
      var k := IndexOf(xs[1..], x);
      if k >= 0 {
        assert xs[..k + 1] == [xs[0]] + xs[1..][..k];
      }
      assert x in xs <==> x in xs[1..];
    } else if xs != [] {
      assert xs[..0] == [];
    }
  }

  /** The home page is first, the team page second, any other path
      unlisted. */
  lemma OrderIndex(p: string)
    ensures IndexOf(Order, p) == if p == "/" then 0 else if p == "/nas-tim" then 1 else -1
  {
    IndexOfSpec(Order, p);
    if p != "/" && p != "/nas-tim" {
      assert p !in Order;
    } else if p == "/nas-tim" {
      assert Order[0] != p;
    }
  }

  /** `prev ? order.indexOf(prev) : 0`: no previous path, or an empty one,
      counts as the first page. */
  function PrevIndex(prev: Option<string>): int {
    if prev.Some? && prev.value != "" then IndexOf(Order, prev.value) else 0
  }

  /** `Math.sign(currIndex - prevIndex) || 1`. */
  function Dir(prev: Option<string>, curr: string): int {
    var s := Sign(IndexOf(Order, curr) - PrevIndex(prev));
    if s == 0 then 1 else s
  }

  /** The direction is forwards or backwards, backwards exactly when the new
      page comes earlier in the order than the previous one. */
  lemma DirSpec(prev: Option<string>, curr: string)
    ensures Dir(prev, curr) == 1 || Dir(prev, curr) == -1
    ensures Dir(prev, curr) == -1 <==> IndexOf(Order, curr) < PrevIndex(prev)
  {
  }

  /** Home to team slides forwards, team to home backwards, and staying on a
      page, or any other re-render, forwards (the empty path, which the
      router never reports, counts as no path and is the one exception). */
  lemma DirBetweenPages(p: string)
    ensures Dir(Some("/"), "/nas-tim") == 1
    ensures Dir(Some("/nas-tim"), "/") == -1
    ensures p != "" ==> Dir(Some(p), p) == 1
    ensures Dir(Some(""), "") == -1
  {
    OrderIndex("/");
    OrderIndex("/nas-tim");
    OrderIndex(p);
  }

  /** Leaving a listed page for an unlisted one slides backwards, and so does
      a first render of an unlisted page; a first render of a listed page
      slides forwards. */
  lemma DirUnlisted(listed: string, p: string)
    requires listed in Order && p !in Order
    ensures Dir(Some(listed), p) == -1
    ensures Dir(None, p) == -1
    ensures Dir(None, listed) == 1
  {
    IndexOfSpec(Order, p);
    IndexOfSpec(Order, listed);
    assert listed != "";
  }

  /** One animation state: opacity and, unless motion is reduced, a
      horizontal offset. */
  datatype Pose = Pose(opacity: int, x: Option<int>)

  /** `DIST = 8 * dir`. */
  function Dist(dir: int): int {
    8 * dir
  }

  function Initial(reduceMotion: bool, dir: int): Pose {
    if reduceMotion then Pose(0, None) else Pose(0, Some(Dist(dir)))
  }

  function Animate(reduceMotion: bool): Pose {
    if reduceMotion then Pose(1, None) else Pose(1, Some(0))
  }

  function Exit(reduceMotion: bool, dir: int): Pose {
    if reduceMotion then Pose(0, None) else Pose(0, Some(-Dist(dir)))
  }

  /** With motion, the page enters 8 pixels to the side of the direction and
      leaves by the same distance on the other side, resting at 0; with
      reduced motion no pose has an offset. Entering and leaving are
      transparent, resting is opaque. */
  lemma PosesSpec(reduceMotion: bool, dir: int)
    requires dir == 1 || dir == -1
    ensures !reduceMotion ==>
      Initial(reduceMotion, dir).x.Some? && Exit(reduceMotion, dir).x.Some?
      && Exit(reduceMotion, dir).x.value == -Initial(reduceMotion, dir).x.value
      && Abs(Initial(reduceMotion, dir).x.value) == 8
      && Sign(Initial(reduceMotion, dir).x.value) == dir
      && Animate(reduceMotion).x == Some(0)
    ensures reduceMotion ==>
      Initial(reduceMotion, dir).x.None? && Animate(reduceMotion).x.None? && Exit(reduceMotion, dir).x.None?
    ensures Initial(reduceMotion, dir).opacity == 0 && Exit(reduceMotion, dir).opacity == 0
      && Animate(reduceMotion).opacity == 1
  {
  }

  /** The wrapper's state: the router's path, the ref holding the path of
      the previous commit, and the reduced-motion preference. */
  class Transition {
    var pathname: string
    var prevPath: Option<string>
    var reduceMotion: bool

    /** The first render (`prevPathRef` still `null`) and its effects: the
        media query read and the path remembered. That render's direction
        is `Dir(None, p)` (see `DirUnlisted`). */
    constructor (p: string, prefersReduced: bool)
      ensures pathname == p && prevPath == Some(p) && reduceMotion == prefersReduced
    {
      pathname := p;
      reduceMotion := prefersReduced;
      prevPath := Some(p);
    }

    /** The direction the current render uses. */
    function CurrentDir(): int
      reads this
    {
      Dir(prevPath, pathname)
    }

    /** A navigation to `p`: its render computes the direction from the path
        still in the ref, and the effect then stores `p`. */
    method Navigate(p: string) returns (dir: int)
      modifies this
      ensures dir == Dir(old(prevPath), p) && (dir == 1 || dir == -1)
      ensures pathname == p && prevPath == Some(p)
      ensures reduceMotion == old(reduceMotion)
    {
      DirSpec(prevPath, p);
      dir := Dir(prevPath, p);
      pathname := p;
      prevPath := Some(p);
    }

    /** The media query changed; the re-render keeps the path. */
    method MotionPreference(matches: bool)
      modifies this
      ensures reduceMotion == matches
      ensures pathname == old(pathname) && prevPath == old(prevPath)
    {
      reduceMotion := matches;
    }

    /** Once the effect has run, every re-render without navigation slides
        forwards. */
    lemma SettledDir()
      requires prevPath == Some(pathname)
      ensures pathname != "" ==> CurrentDir() == 1
    {
      DirBetweenPages(pathname);
    }
  }
}
