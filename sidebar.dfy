/** The sidebar (src/components/Sidebar.tsx): the collapse toggle, the
    width and labels it controls, and the active-link rule. */
module Sidebar {
  import Auth
  import Routing

  datatype SidebarLink = SidebarLink(caption: string, href: string)

  /** The six main links followed by the Settings link at the bottom. */
  const Links: seq<SidebarLink> := [
    SidebarLink("Dashboard", "/"),
    SidebarLink("Projects", "/projects"),
    SidebarLink("Documents", "/documents"),
    SidebarLink("Messages", "/messages"),
    SidebarLink("Team", "/team"),
    SidebarLink("Reports", "/reports"),
    SidebarLink("Settings", "/settings")
  ]

  /** `active={currentPath === href}`: exact equality, no prefix match. */
  function IsActive(link: SidebarLink, currentPath: string): bool
  {
    currentPath == link.href
  }

  lemma LinkHrefsDistinct()
    ensures forall i, j :: 0 <= i < j < |Links| ==> Links[i].href != Links[j].href
  {
  }

  /** Because the hrefs differ, at most one link is active on any path. */
  lemma AtMostOneActive(currentPath: string, i: nat, j: nat)
    requires i < |Links| && j < |Links|
    requires IsActive(Links[i], currentPath) && IsActive(Links[j], currentPath)
    ensures i == j
  {
    LinkHrefsDistinct();
  }

  /** The six main links lead to the guarded feature pages. */
  lemma {:induction false} MainLinksGuarded()
    ensures forall i :: 0 <= i < 6 ==> Links[i].href in Routing.GuardedPaths
  {
    Routing.RoutePaths();
  }

  /** Settings leads to a path the route table does not have, so it shows
      NotFound. */
  lemma {:induction false} SettingsLinkNotFound(state: Auth.AuthState)
    ensures Routing.View(Links[6].href, state) == Routing.PageScreen(Routing.NotFoundPage)
  {
    Routing.RoutePaths();
    Routing.UnknownPathNotFound(Links[6].href, state);
  }

  /** The panel's width class. */
  function WidthClass(collapsed: bool): (cls: string)
    ensures cls == "w-16" <==> collapsed
    ensures cls == "w-64" <==> !collapsed
  {
    if collapsed then "w-16" else "w-64"
  }

  /** The title and the "New Project" label are drawn only when expanded. */
  function ShowsTitle(collapsed: bool): bool { !collapsed }
  function ShowsNewProjectLabel(collapsed: bool): bool { !collapsed }

  /** The title and the button label appear and disappear together, and
      exactly when the panel has its wide class. */
  lemma TextFollowsWidth(collapsed: bool)
    ensures ShowsTitle(collapsed) == ShowsNewProjectLabel(collapsed)
    ensures ShowsTitle(collapsed) <==> WidthClass(collapsed) == "w-64"
  {
  }

  class SidebarPanel {
    /** The `collapsed` state. */
    var collapsed: bool

    constructor ()
      ensures !collapsed
    {
      collapsed := false;
    }

    /** The menu button: `setCollapsed(!collapsed)`. */
    method Toggle()
      modifies this
      ensures collapsed == !old(collapsed)
    {
      collapsed := !collapsed;
    }
  }

  /** Two presses of the menu button restore the panel. */
  method ToggleTwice(panel: SidebarPanel)
    modifies panel
    ensures panel.collapsed == old(panel.collapsed)
    ensures WidthClass(panel.collapsed) == old(WidthClass(panel.collapsed))
  {
    panel.Toggle();
    panel.Toggle();
  }
}
