/** The navigation bar: its scroll shadow, the mobile menu's open/closed
    classes and the highlighting of the nav link of the section in view.
    The DOM is reduced to the booleans and numbers these handlers read and
    write: class-list membership is a `bool`, an element's layout is a `real`. */
module Navigation {
  import opened Wrappers

  /** The navbar gets its drop shadow once the page is scrolled past 50 px. */
  predicate HasShadow(scrollY: real)
  {
    scrollY > 50.0
  }

  // ----- Mobile menu -----

  /** The `active` class on the menu button and on the menu itself. */
  datatype Menu = Menu(toggleActive: bool, menuActive: bool)

  predicate InSync(m: Menu)
  {
    m.toggleActive == m.menuActive
  }

  /** A click on the menu button: both classes follow the negation of the
      menu's own state, whatever the button's state was. */
  function ToggleClick(m: Menu): (r: Menu)
    ensures r.menuActive == !m.menuActive
    ensures r.toggleActive == !m.menuActive
  {
    if m.menuActive then Menu(false, false) else Menu(true, true)
  }

  /** A click on any nav link closes the menu. */
  function LinkClick(m: Menu): (r: Menu)
    ensures !r.toggleActive && !r.menuActive
  {
    Menu(false, false)
  }

  datatype MenuEvent = ButtonClicked | LinkClicked

  function MenuAfter(m: Menu, events: seq<MenuEvent>): Menu
  {
    if events == [] then m
    else
      var before := MenuAfter(m, events[..|events| - 1]);
      match events[|events| - 1]
      case ButtonClicked => ToggleClick(before)
      case LinkClicked => LinkClick(before)
  }

  /** The two classes agree after any click, and keep agreeing if they
      agreed to begin with. */
  lemma {:induction false} MenuStaysInSync(m: Menu, events: seq<MenuEvent>)
    requires InSync(m) || events != []
    ensures InSync(MenuAfter(m, events))
  {
    if |events| > 1 {
      MenuStaysInSync(m, events[..|events| - 1]);
    }
  }

  /** Two button clicks on an in-sync menu restore it. */
  lemma ToggleTwice(m: Menu)
    requires InSync(m)
    ensures ToggleClick(ToggleClick(m)) == m
  {
  }

  /** The menu button and the menu, with the classes the markup gave them. */
  class MobileMenu {
    var toggleActive: bool
    var menuActive: bool

    constructor (toggleActive: bool, menuActive: bool)
      ensures this.toggleActive == toggleActive && this.menuActive == menuActive
    {
      this.toggleActive := toggleActive;
      this.menuActive := menuActive;
    }

    method ButtonClick()
      modifies this
      ensures Menu(toggleActive, menuActive) == ToggleClick(Menu(old(toggleActive), old(menuActive)))
    {
      var isActive := menuActive;
      if isActive {
        toggleActive := false;
        menuActive := false;
      } else {
        toggleActive := true;
        menuActive := true;
      }
    }

    method NavLinkClick()
      modifies this
      ensures Menu(toggleActive, menuActive) == LinkClick(Menu(old(toggleActive), old(menuActive)))
    {
      toggleActive := false;
      menuActive := false;
    }
  }

  // ----- Active section -----

  /** A `section[id]` element with its id and current layout. */
  datatype Section = Section(id: string, offsetTop: real, offsetHeight: real)

  /** The section, shifted up by 100 px for the fixed navbar, holds the scroll
      position: strictly below its top, up to and including its bottom. */
  predicate InView(s: Section, scrollY: real)
    ensures InView(s, scrollY) ==> s.offsetHeight > 0.0
  {
    var top := s.offsetTop - 100.0;
    top < scrollY <= top + s.offsetHeight
  }

  /** The last section in document order that is in view, if any. */
  function LastInView(sections: seq<Section>, scrollY: real): (r: Option<nat>)
    ensures r.Some? ==> r.value < |sections| && InView(sections[r.value], scrollY)
    ensures r.Some? ==> forall j :: r.value < j < |sections| ==> !InView(sections[j], scrollY)
    ensures r.None? <==> forall j :: 0 <= j < |sections| ==> !InView(sections[j], scrollY)
  {
    if sections == [] then None
    else if InView(sections[|sections| - 1], scrollY) then Some(|sections| - 1)
    else LastInView(sections[..|sections| - 1], scrollY)
  }

  /** The nav link `.nav-link[href="<target>"]` that `querySelector` finds:
      the first one in document order. */
  function LinkFor(hrefs: seq<string>, target: string): (r: Option<nat>)
    ensures r.Some? ==> r.value < |hrefs| && hrefs[r.value] == target
    ensures r.Some? ==> forall j :: 0 <= j < r.value ==> hrefs[j] != target
    ensures r.None? <==> target !in hrefs
  {
    if hrefs == [] then None
    else if hrefs[0] == target then Some(0)
    else
      match LinkFor(hrefs[1..], target)
      case None => None
      case Some(j) => Some(j + 1)
  }

  /** Exactly the selected link is highlighted. */
  function Marked(n: nat, selected: Option<nat>): (r: seq<bool>)
    ensures |r| == n
    ensures forall j :: 0 <= j < n ==> (r[j] <==> selected == Some(j))
  {
    seq(n, j => selected == Some(j))
  }

  /** The highlights after one scroll event: if some section is in view, only
      the link of the last such section (when it has one) is highlighted;
      if none is, the highlights stay as they were. */
  function Highlight(hrefs: seq<string>, sections: seq<Section>, scrollY: real, active: seq<bool>): (r: seq<bool>)
    requires |active| == |hrefs|
    ensures |r| == |hrefs|
    ensures LastInView(sections, scrollY).None? ==> r == active
    ensures LastInView(sections, scrollY).Some? ==>
              var target := "#" + sections[LastInView(sections, scrollY).value].id;
              forall j :: 0 <= j < |r| ==>
                (r[j] <==> hrefs[j] == target && forall i :: 0 <= i < j ==> hrefs[i] != target)
  {
    match LastInView(sections, scrollY)
    case None => active
    case Some(k) => Marked(|hrefs|, LinkFor(hrefs, "#" + sections[k].id))
  }

  /** The nav links (their `href`s in document order) and which of them
      carry the `active` class. */
  class SectionHighlighter {
    const hrefs: seq<string>
    var active: seq<bool>

    ghost predicate Valid()
      reads this
    {
      |active| == |hrefs|
    }

    constructor (hrefs: seq<string>, active: seq<bool>)
      requires |active| == |hrefs|
      ensures Valid() && this.hrefs == hrefs && this.active == active
    {
      this.hrefs := hrefs;
      this.active := active;
    }

    /** The scroll handler: visits the sections in order, and for each one in
        view clears every highlight and highlights that section's link. */
    method OnScroll(sections: seq<Section>, scrollY: real)
      requires Valid()
      modifies this
      ensures Valid()
      ensures active == Highlight(hrefs, sections, scrollY, old(active))
    {
      var i := 0;
      while i < |sections|
        invariant 0 <= i <= |sections|
        invariant |active| == |hrefs|
        invariant active == Highlight(hrefs, sections[..i], scrollY, old(active))
      {
        var section := sections[i];
        if InView(section, scrollY) {
          var j := 0;
          while j < |active|
            invariant 0 <= j <= |active| == |hrefs|
            invariant forall t :: 0 <= t < j ==> !active[t]
          {
            active := active[j := false];
            j := j + 1;
          }
          var link := LinkFor(hrefs, "#" + section.id);
          if link.Some? {
            active := active[link.value := true];
          }
          assert active == Marked(|hrefs|, link);
        }
        assert sections[..i + 1][..i] == sections[..i];
        i := i + 1;
      }
      assert sections[..i] == sections;
    }
  }
}
