/**
  The site's navigation bar: the mobile menu's open state, the section
  highlighted for the current scroll position, the "scrolled" styling, the
  light/dark theme and its persistence, and in-page link clicks.

  The page is given as `doc`, a map from element id to that element's
  `offsetTop`; an id missing from the map is an element the page lacks.
  Local storage's `theme` entry and the `dark` class on the root element are
  fields of the state.
 */
module Navigation {
  import opened Wrappers
  import opened JsString

  datatype NavItem = NavItem(title: string, href: string, id: string)

  /** The items used when none are passed. */
  const DefaultItems: seq<NavItem> := [
    NavItem("Home", "#home", "home"),
    NavItem("About", "#about", "about"),
    NavItem("Projects", "#projects", "projects"),
    NavItem("Experience", "#experience", "experience"),
    NavItem("Contact", "#contact", "contact")
  ]

  /* ---------- the active section ---------- */

  /**
    The sections' offsets: each item's element looked up by id, the missing
    ones dropped (`.filter(Boolean)`), so later elements move up a place.
   */
  function Offsets(items: seq<NavItem>, doc: map<string, int>): (r: seq<int>)
    ensures |r| <= |items|
    ensures |r| == |items| <==> forall i :: 0 <= i < |items| ==> items[i].id in doc
  {
    if items == [] then []
    else if items[0].id in doc then [doc[items[0].id]] + Offsets(items[1..], doc)
    else Offsets(items[1..], doc)
  }

  /** The items whose element is on the page, in order. */
  function PresentItems(items: seq<NavItem>, doc: map<string, int>): (r: seq<NavItem>)
    ensures |r| == |Offsets(items, doc)|
    ensures forall i :: 0 <= i < |r| ==> r[i].id in doc && doc[r[i].id] == Offsets(items, doc)[i]
  {
    if items == [] then []
    else if items[0].id in doc then [items[0]] + PresentItems(items[1..], doc)
    else PresentItems(items[1..], doc)
  }

  /** The last index whose offset is at most `pos`, if any. */
  function LastAtMost(offsets: seq<int>, pos: int): (r: Option<nat>)
    ensures r.Some? ==>
      (r.value < |offsets| && offsets[r.value] <= pos && forall j :: r.value < j < |offsets| ==> offsets[j] > pos)
    ensures r.None? <==> forall j :: 0 <= j < |offsets| ==> offsets[j] > pos
  {
    if offsets == [] then None
    else if offsets[|offsets| - 1] <= pos then Some(|offsets| - 1)
    else LastAtMost(offsets[..|offsets| - 1], pos)
  }

  /**
    The active section after a scroll to `scrollY` as the handler computes
    it: the `i`-th remaining element is paired with the `i`-th item, and
    with no element at or above `scrollY + 100` the old value stays.
   */
  function ActiveAfterScroll(items: seq<NavItem>, doc: map<string, int>, scrollY: int, current: string): string {
    match LastAtMost(Offsets(items, doc), scrollY + 100)
    case Some(i) => items[i].id
    case None => current
  }

  /** The test's page: `home`, `about`, `projects` at 0, 200 and 400. */
  const TestItems: seq<NavItem> := DefaultItems[..3]

  /** At scroll position 150, `about` is highlighted. */
  lemma ActiveSectionExample(current: string)
    ensures ActiveAfterScroll(TestItems, map["home" := 0, "about" := 200, "projects" := 400], 150, current) == "about"
  {
    var doc := map["home" := 0, "about" := 200, "projects" := 400];
    assert TestItems[2..][1..] == [];
    assert Offsets(TestItems[2..], doc) == [400];
    assert Offsets(TestItems[1..], doc) == [200, 400];
    assert Offsets(TestItems, doc) == [0, 200, 400];
    assert [0, 200, 400][..2] == [0, 200];
    assert LastAtMost([0, 200, 400], 250) == Some(1);
  }

  /**
    The element-to-item pairing the highlighting evidently intends: the last
    item whose own element starts at or above `scrollY + 100`.
   */
  function IntendedActive(items: seq<NavItem>, doc: map<string, int>, scrollY: int, current: string): (r: string)
    ensures r != current ==> exists i :: 0 <= i < |items| && items[i].id == r && items[i].id in doc && doc[r] <= scrollY + 100
  {
    match LastAtMost(Offsets(items, doc), scrollY + 100)
    case Some(i) =>
      var present := PresentItems(items, doc);
      PresentItemsIn(items, doc, i);
      present[i].id
    case None => current
  }

  lemma {:induction false} PresentItemsIn(items: seq<NavItem>, doc: map<string, int>, i: nat)
    requires i < |PresentItems(items, doc)|
    ensures PresentItems(items, doc)[i] in items
  {
    if items[0].id in doc {
      if i > 0 {
        PresentItemsIn(items[1..], doc, i - 1);
      }
    } else {
      PresentItemsIn(items[1..], doc, i);
    }
  }

  /** With every element on the page the handler picks the intended item. */
  lemma {:induction false} AllPresentAgrees(items: seq<NavItem>, doc: map<string, int>, scrollY: int, current: string)
    requires forall i :: 0 <= i < |items| ==> items[i].id in doc
    ensures ActiveAfterScroll(items, doc, scrollY, current) == IntendedActive(items, doc, scrollY, current)
  {
    AllPresent(items, doc);
  }

  lemma {:induction false} AllPresent(items: seq<NavItem>, doc: map<string, int>)
    requires forall i :: 0 <= i < |items| ==> items[i].id in doc
    ensures PresentItems(items, doc) == items
  {
    if items != [] {
      AllPresent(items[1..], doc);
    }
  }

  /**
    With `home`'s element missing, at scroll position 150 the handler
    highlights `home` (paired with the `about` element at 200), where the
    intended item is `about`.
   */
  lemma MissingElementShiftsPairing(current: string)
    ensures ActiveAfterScroll(TestItems, map["about" := 200, "projects" := 400], 150, current) == "home"
    ensures IntendedActive(TestItems, map["about" := 200, "projects" := 400], 150, current) == "about"
  {
    var doc := map["about" := 200, "projects" := 400];
    assert TestItems[2..][1..] == [];
    assert Offsets(TestItems[2..], doc) == [400];
    assert Offsets(TestItems, doc) == [200, 400];
    assert PresentItems(TestItems[2..], doc) == TestItems[2..];
    assert PresentItems(TestItems, doc) == TestItems[1..];
  }

  /* ---------- theme ---------- */

  /** The theme on mount: a non-empty saved value as it is, else dark iff the system prefers dark. */
  function InitialTheme(saved: Option<string>, prefersDark: bool): (r: string)
    ensures saved.Some? && saved.value != "" ==> r == saved.value
    ensures (saved.None? || saved.value == "") ==> (r == "dark" <==> prefersDark) && (r == "light" <==> !prefersDark)
  {
    if saved.Some? && saved.value != "" then saved.value
    else if prefersDark then "dark" else "light"
  }

  /** The theme after a toggle: anything but `light` becomes `light`. */
  function Toggled(theme: string): (r: string)
    ensures r == "light" || r == "dark"
    ensures r != theme
  {
    if theme == "light" then "dark" else "light"
  }

  /** Toggling twice restores the theme exactly when it was `light` or `dark`. */
  lemma ToggleTwice(theme: string)
    ensures Toggled(Toggled(theme)) == theme <==> theme == "light" || theme == "dark"
  {
  }

  /** `document.body.style.overflow` while the mobile menu is open or closed. */
  function MenuOverflow(isOpen: bool): string {
    if isOpen then "hidden" else "unset"
  }

  /** The navigation bar's state. */
  class NavigationState {
    const items: seq<NavItem>
    var isOpen: bool
    var activeSection: string
    var theme: string
    var isScrolled: bool
    var storedTheme: Option<string>
    var darkClass: bool
    var scrolledTo: Option<int>

    /** The root element carries `dark` exactly when the theme is dark. */
    predicate ThemeApplied()
      reads this
    {
      darkClass <==> theme == "dark"
    }

    /** The first render; `saved` is local storage's `theme` entry. */
    constructor(items: seq<NavItem>, saved: Option<string>)
      ensures this.items == items && !isOpen && activeSection == "" && theme == "light" && !isScrolled
      ensures storedTheme == saved && !darkClass && scrolledTo.None?
    {
      this.items := items;
      isOpen := false;
      activeSection := "";
      theme := "light";
      isScrolled := false;
      storedTheme := saved;
      darkClass := false;
      scrolledTo := None;
    }

    /** The theme effect on mount. */
    method LoadTheme(prefersDark: bool)
      modifies this
      ensures theme == InitialTheme(storedTheme, prefersDark) && ThemeApplied()
      ensures storedTheme == old(storedTheme) && isOpen == old(isOpen) && activeSection == old(activeSection)
      ensures isScrolled == old(isScrolled) && scrolledTo == old(scrolledTo)
    {
      theme := InitialTheme(storedTheme, prefersDark);
      darkClass := theme == "dark";
    }

    /** `toggleTheme`: flip, persist, apply. */
    method ToggleTheme()
      modifies this
      ensures theme == Toggled(old(theme)) && storedTheme == Some(theme) && ThemeApplied()
      ensures isOpen == old(isOpen) && activeSection == old(activeSection)
      ensures isScrolled == old(isScrolled) && scrolledTo == old(scrolledTo)
    {
      var newTheme := Toggled(theme);
      theme := newTheme;
      storedTheme := Some(newTheme);
      darkClass := newTheme == "dark";
    }

    /** The styling scroll handler. */
    method HandleScroll(scrollY: int)
      modifies this
      ensures isScrolled <==> scrollY > 20
      ensures isOpen == old(isOpen) && activeSection == old(activeSection) && theme == old(theme)
      ensures storedTheme == old(storedTheme) && darkClass == old(darkClass) && scrolledTo == old(scrolledTo)
    {
      isScrolled := scrollY > 20;
    }

    /** The active-section scroll handler: a scan from the last section back to the first. */
    method HandleSectionScroll(doc: map<string, int>, scrollY: int)
      modifies this
      ensures activeSection == ActiveAfterScroll(items, doc, scrollY, old(activeSection))
      ensures isOpen == old(isOpen) && isScrolled == old(isScrolled) && theme == old(theme)
      ensures storedTheme == old(storedTheme) && darkClass == old(darkClass) && scrolledTo == old(scrolledTo)
    {
      var sections := Offsets(items, doc);
      var scrollPosition := scrollY + 100;
      var i := |sections| - 1;
      while i >= 0
        invariant -1 <= i < |sections|
        invariant activeSection == old(activeSection)
        invariant forall j :: i < j < |sections| ==> sections[j] > scrollPosition
        decreases i + 1
      {
        if sections[i] <= scrollPosition {
          activeSection := items[i].id;
          assert LastAtMost(sections, scrollPosition) == Some(i);
          break;
        }
        i := i - 1;
      }
    }

    /** `handleNavClick`: an in-page link scrolls to 80 pixels above its section and closes the menu. */
    method HandleNavClick(href: string, doc: map<string, int>)
      modifies this
      ensures StartsWith(href, "#") ==>
        !isOpen && scrolledTo == (if href[1..] in doc then Some(doc[href[1..]] - 80) else old(scrolledTo))
      ensures !StartsWith(href, "#") ==> isOpen == old(isOpen) && scrolledTo == old(scrolledTo)
      ensures activeSection == old(activeSection) && theme == old(theme) && isScrolled == old(isScrolled)
      ensures storedTheme == old(storedTheme) && darkClass == old(darkClass)
    {
      if StartsWith(href, "#") {
        var targetId := href[1..];
        if targetId in doc {
          scrolledTo := Some(doc[targetId] - 80);
        }
        isOpen := false;
      }
    }

    /** The menu button. */
    method ToggleMenu()
      modifies this
      ensures isOpen == !old(isOpen)
      ensures activeSection == old(activeSection) && theme == old(theme) && isScrolled == old(isScrolled)
      ensures storedTheme == old(storedTheme) && darkClass == old(darkClass) && scrolledTo == old(scrolledTo)
    {
      isOpen := !isOpen;
    }

    /** A key press anywhere: Escape closes the menu. */
    method HandleEscape(key: string)
      modifies this
      ensures isOpen == (old(isOpen) && key != "Escape")
      ensures activeSection == old(activeSection) && theme == old(theme) && isScrolled == old(isScrolled)
      ensures storedTheme == old(storedTheme) && darkClass == old(darkClass) && scrolledTo == old(scrolledTo)
    {
      if key == "Escape" {
        isOpen := false;
      }
    }

    /** A mouse press, listened for only while the menu is open: outside the bar it closes the menu. */
    method HandleMouseDown(insideNav: bool)
      modifies this
      ensures isOpen == (old(isOpen) && insideNav)
      ensures activeSection == old(activeSection) && theme == old(theme) && isScrolled == old(isScrolled)
      ensures storedTheme == old(storedTheme) && darkClass == old(darkClass) && scrolledTo == old(scrolledTo)
    {
      if isOpen && !insideNav {
        isOpen := false;
      }
    }
  }

  /** The link test: a section at 100 is scrolled to 20, and the open menu closes. */
  method NavClickExample() returns (nav: NavigationState)
    ensures nav.scrolledTo == Some(20) && !nav.isOpen
  {
    nav := new NavigationState(TestItems, None);
    nav.ToggleMenu();
    nav.HandleNavClick("#home", map["home" := 100]);
  }

  /** With nothing saved, the toggle test: light becomes dark, is saved, and applied. */
  method ToggleExample() returns (nav: NavigationState)
    ensures nav.theme == "dark" && nav.storedTheme == Some("dark") && nav.darkClass
  {
    nav := new NavigationState(DefaultItems, None);
    nav.LoadTheme(false);
    nav.ToggleTheme();
  }
}
