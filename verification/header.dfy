/**
 * The page header: the mobile flag driven by the window width, the mobile
 * menu's open state and its handlers, and the navigation anchors.
 */
module Header {
  import opened Js

  /** Widths up to and including this many pixels count as mobile. */
  const MobileBreakpoint := 768

  datatype State = State(isMobile: bool, menuOpen: bool)

  /** Before the mount effect runs: desktop, menu closed. */
  function Initial(): (s: State)
    ensures !s.isMobile && !s.menuOpen
  {
    State(false, false)
  }

  /** `checkScreenSize`, run on mount and on every `resize`. The menu is left
      as it is, so an open menu stays open when the window widens. */
  function CheckScreenSize(s: State, innerWidth: int): (r: State)
    ensures r.isMobile <==> innerWidth <= MobileBreakpoint
    ensures r.menuOpen == s.menuOpen
  {
    s.(isMobile := innerWidth <= MobileBreakpoint)
  }

  /** `toggleMobileMenu`. */
  function ToggleMobileMenu(s: State): (r: State)
    ensures r.menuOpen != s.menuOpen
    ensures r.isMobile == s.isMobile
  {
    s.(menuOpen := !s.menuOpen)
  }

  /** `handleLogoClick` and `handleNavClick` both close the menu (the page
      scroll and the log line are left out). */
  function CloseMenu(s: State): (r: State)
    ensures !r.menuOpen
    ensures r.isMobile == s.isMobile
  {
    s.(menuOpen := false)
  }

  lemma ToggleTwiceRestores(s: State)
    ensures ToggleMobileMenu(ToggleMobileMenu(s)) == s
  {
  }

  lemma CloseIsIdempotent(s: State)
    ensures CloseMenu(CloseMenu(s)) == CloseMenu(s)
  {
  }

  /** What the header reacts to. */
  datatype Event = Resize(innerWidth: int) | ToggleMenu | LogoClick | NavClick(section: string)

  function Step(s: State, e: Event): State
  {
    match e
    case Resize(w) => CheckScreenSize(s, w)
    case ToggleMenu => ToggleMobileMenu(s)
    case LogoClick => CloseMenu(s)
    case NavClick(_) => CloseMenu(s)
  }

  /** Events applied in order, oldest first. */
  function Run(s: State, es: seq<Event>): State
  {
    if |es| == 0 then s else Step(Run(s, es[..|es| - 1]), es[|es| - 1])
  }

  /** The number of toggles since the most recent logo or navigation click. */
  function TogglesSinceClose(es: seq<Event>): nat
  {
    if |es| == 0 then 0
    else
      match es[|es| - 1]
      case ToggleMenu => 1 + TogglesSinceClose(es[..|es| - 1])
      case Resize(_) => TogglesSinceClose(es[..|es| - 1])
      case LogoClick => 0
      case NavClick(_) => 0
  }

  /** The most recent width seen, if any. */
  function LastWidth(es: seq<Event>): Nullable<int>
  {
    if |es| == 0 then Null
    else if es[|es| - 1].Resize? then Value(es[|es| - 1].innerWidth)
    else LastWidth(es[..|es| - 1])
  }

  /** From the initial state, the menu is open exactly when an odd number of
      toggles followed the last close, and the mobile flag follows the most
      recent width (desktop if none has been seen). */
  lemma {:induction false} RunFromInitial(es: seq<Event>)
    ensures Run(Initial(), es).menuOpen <==> TogglesSinceClose(es) % 2 == 1
    ensures Run(Initial(), es).isMobile <==> LastWidth(es).Value? && LastWidth(es).value <= MobileBreakpoint
  {
    if |es| > 0 {
      RunFromInitial(es[..|es| - 1]);
    }
  }

  /** Class tokens of the header element. */
  function HeaderClasses(darkMode: bool): (r: seq<string>)
    ensures "header" in r
    ensures "dark-mode" in r <==> darkMode
  {
    Conditional("header", darkMode, "dark-mode", "")
  }

  /** Class tokens of the menu button (`mobile-menu-btn`) and of the mobile
      navigation (`nav-mobile`): each carries `open` exactly while the menu is open. */
  function MenuClasses(base: string, menuOpen: bool): (r: seq<string>)
    requires base != "" && base != "open"
    ensures base in r
    ensures "open" in r <==> menuOpen
  {
    Conditional(base, menuOpen, "open", "")
  }

  /** The button and the drawer show `open` together. */
  lemma ButtonAndDrawerAgree(menuOpen: bool)
    ensures "open" in MenuClasses("mobile-menu-btn", menuOpen) <==> "open" in MenuClasses("nav-mobile", menuOpen)
    ensures "open" in MenuClasses("mobile-menu-btn", menuOpen) <==> menuOpen
  {
  }

  /** An anchor: its `href`, the section its click handler names, its caption. */
  datatype NavLink = NavLink(href: string, section: string, caption: string)

  const DesktopNav: seq<NavLink> := [
    NavLink("#about", "about", "About"),
    NavLink("#skills", "skills", "Skills"),
    NavLink("#projects", "projects", "Projects"),
    NavLink("#contact", "contact", "Contact")
  ]

  const MobileNav: seq<NavLink> := [
    NavLink("#about", "about", "About"),
    NavLink("#skills", "skills", "Skills"),
    NavLink("#projects", "projects", "Projects"),
    NavLink("#contact", "contact", "Contact")
  ]

  /** Both navigations list the same four anchors in the same order, and each
      anchor's fragment is the section its click handler reports. */
  lemma NavigationsAgree()
    ensures DesktopNav == MobileNav
    ensures |DesktopNav| == 4
    ensures forall i :: 0 <= i < |DesktopNav| ==> DesktopNav[i].href == "#" + DesktopNav[i].section
    ensures [DesktopNav[0].href, DesktopNav[1].href, DesktopNav[2].href, DesktopNav[3].href]
            == ["#about", "#skills", "#projects", "#contact"]
  {
  }

  /** Clicking any anchor of either navigation closes the menu. */
  lemma NavClickCloses(s: State, i: nat)
    requires i < |MobileNav|
    ensures !Step(s, NavClick(MobileNav[i].section)).menuOpen
    ensures !Step(s, NavClick(DesktopNav[i].section)).menuOpen
  {
  }
}
