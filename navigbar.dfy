/** The site header (src/components/Navigbar.tsx): the links and the call to
    action chosen by the current path, the elevated look after scrolling,
    and the mobile menu's open flag. */
module Navigbar {
  import opened Text

  datatype NavItem = NavItem(name: string, href: string)

  const Pokrytie := NavItem("Pokrytie", "/#pokrytie")
  const ONas := NavItem("O nás", "/nas-tim")
  const Rasty := NavItem("Rasty", "/rasty")

  /** `desktopLinks`, also used for the mobile menu. */
  function Links(pathname: string): seq<NavItem> {
    if pathname == "/" then [Pokrytie, ONas, Rasty]
    else if StartsWith(pathname, "/nas-tim") then
      [Pokrytie,
       NavItem("Náš tím", "/nas-tim#tim"),
       NavItem("Fungovanie", "/nas-tim#fungovanie"),
       NavItem("Fotogaléria", "/nas-tim#fotogaleria"),
       Rasty]
    else if StartsWith(pathname, "/rasty") then [Pokrytie, ONas]
    else [Pokrytie, ONas, Rasty]
  }

  /** Names (labels) are the React keys of both link lists. */
  predicate DistinctLabels(items: seq<NavItem>) {
    forall i, j :: 0 <= i < j < |items| ==> items[i].name != items[j].name
  }

  predicate HasHref(items: seq<NavItem>, href: string) {
    exists i :: 0 <= i < |items| && items[i].href == href
  }

  /** Every list opens with the coverage link and has distinct labels; the
      team pages get five links, the Rasty pages two and no link to
      themselves, and every other path, the home page included, the same
      three. */
  lemma LinksSpec(pathname: string)
    ensures |Links(pathname)| >= 2 && Links(pathname)[0] == Pokrytie
    ensures DistinctLabels(Links(pathname))
    ensures StartsWith(pathname, "/nas-tim") ==> |Links(pathname)| == 5
    ensures StartsWith(pathname, "/rasty") ==> Links(pathname) == [Pokrytie, ONas] && !HasHref(Links(pathname), "/rasty")
    ensures !StartsWith(pathname, "/nas-tim") && !StartsWith(pathname, "/rasty") ==> Links(pathname) == Links("/")
  {
    if pathname == "/" {
      assert !StartsWith(pathname, "/nas-tim") && !StartsWith(pathname, "/rasty");
    }
    if StartsWith(pathname, "/rasty") {
      assert pathname != "/";
      assert !StartsWith(pathname, "/nas-tim") by {
        assert pathname[1] == 'r';
      }
    }
  }

  /** `cta`. */
  function Cta(pathname: string): NavItem {
    if StartsWith(pathname, "/nas-tim") then NavItem("Ako fungujeme", "/nas-tim#fungovanie")
    else if StartsWith(pathname, "/rasty") then NavItem("Video o Rastym", "/rasty#video")
    else NavItem("Ako postupovať", "/#postup")
  }

  /** The call to action stays in the section it belongs to, and it repeats
      one of the header's links exactly on the team pages. */
  lemma CtaSpec(pathname: string)
    ensures StartsWith(pathname, "/nas-tim") ==> StartsWith(Cta(pathname).href, "/nas-tim#")
    ensures StartsWith(pathname, "/rasty") ==> StartsWith(Cta(pathname).href, "/rasty#")
    ensures !StartsWith(pathname, "/nas-tim") && !StartsWith(pathname, "/rasty") ==> Cta(pathname).href == "/#postup"
    ensures HasHref(Links(pathname), Cta(pathname).href) <==> StartsWith(pathname, "/nas-tim")
  {
    LinksSpec(pathname);
    var links := Links(pathname);
    if StartsWith(pathname, "/nas-tim") {
      assert links[2].href == Cta(pathname).href;
    } else if StartsWith(pathname, "/rasty") {
      assert Cta(pathname).href == "/rasty#video";
      forall i | 0 <= i < |links| ensures links[i].href != "/rasty#video" {
        assert |links[i].href| != 12;
      }
    } else {
      forall i | 0 <= i < |links| ensures links[i].href != "/#postup" {
        assert |links[i].href| != 8 || links[i].href[1] != '#';
      }
    }
  }

  /** `(window?.scrollY || 0) > 8`. */
  predicate Elevated(scrollY: real) {
    scrollY > 8.0
  }

  /** The header's state: the current path, the menu flag, the elevated
      flag and whether it has mounted (it renders nothing before). */
  class Header {
    var pathname: string
    var open: bool
    var elevated: bool
    var mounted: bool

    constructor (p: string)
      ensures pathname == p && !open && !elevated && !mounted
    {
      pathname := p;
      open := false;
      elevated := false;
      mounted := false;
    }

    /** The mount effects: one scroll reading, then `mounted`. */
    method Mount(scrollY: real)
      modifies this
      ensures mounted && (elevated <==> Elevated(scrollY))
      ensures pathname == old(pathname) && open == old(open)
    {
      elevated := Elevated(scrollY);
      mounted := true;
    }

    method Scroll(scrollY: real)
      modifies this
      ensures elevated <==> Elevated(scrollY)
      ensures pathname == old(pathname) && open == old(open) && mounted == old(mounted)
    {
      elevated := Elevated(scrollY);
    }

    /** The menu button. */
    method ToggleMenu()
      modifies this
      ensures open == !old(open)
      ensures pathname == old(pathname) && elevated == old(elevated) && mounted == old(mounted)
    {
      open := !open;
    }

    /** A link or the call to action in the mobile menu. */
    method LinkClick()
      modifies this
      ensures !open
      ensures pathname == old(pathname) && elevated == old(elevated) && mounted == old(mounted)
    {
      open := false;
    }

    /** The router reports `p`; the effect on `pathname` closes the menu when
        the path really changed. */
    method Navigate(p: string)
      modifies this
      ensures pathname == p
      ensures open == (old(open) && p == old(pathname))
      ensures elevated == old(elevated) && mounted == old(mounted)
    {
      if p != pathname {
        open := false;
      }
      pathname := p;
    }

    /** The links on show, or none before mounting. */
    function Shown(): seq<NavItem>
      reads this
    {
      if mounted then Links(pathname) else []
    }
  }
}
