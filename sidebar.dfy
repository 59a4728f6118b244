/**
 * The dashboard sidebar: the navigation items, the rule that marks the item
 * of the current path as active, and the collapse state with everything it
 * shows, hides or resizes.
 */
module Sidebar {
  import opened Wrappers
  import opened JsText

  datatype NavItem = NavItem(href: string, navLabel: string, badge: Option<string>)

  const MainNavItems: seq<NavItem> := [
    NavItem("/dashboard", "Dashboard", None),
    NavItem("/tenants", "Tenants", Some("4")),
    NavItem("/leases", "Leases", Some("2")),
    NavItem("/maintenance", "Maintenance", Some("3")),
    NavItem("/analytics", "Analytics", None)
  ]

  /** The secondary items carry no badge. */
  const SecondaryNavItems: seq<NavItem> := [
    NavItem("/profile", "Profile", None),
    NavItem("/settings", "Settings", None),
    NavItem("/help", "Help & Support", None)
  ]

  // ---------------------------------------------------------------- active item

  /** The path starts with `href + "/"` exactly when it starts with `href` and has a "/" right after it. */
  lemma StartsWithSlash(pathname: string, href: string)
    ensures StartsWith(pathname, href + "/") <==>
            StartsWith(pathname, href) && |pathname| > |href| && pathname[|href|] == '/'
  {
    if StartsWith(pathname, href) && |pathname| > |href| && pathname[|href|] == '/' {
      assert pathname[..|href| + 1] == pathname[..|href|] + [pathname[|href|]];
    }
    if StartsWith(pathname, href + "/") {
      assert pathname[..|href|] == pathname[..|href| + 1][..|href|];
    }
  }

  /**
   * `pathname === href || pathname.startsWith(href + "/")`: the href is a
   * prefix of the path that ends at the path's end or at a "/".
   */
  predicate IsActive(pathname: string, href: string)
    ensures IsActive(pathname, href) <==>
            StartsWith(pathname, href) && (|pathname| == |href| || pathname[|href|] == '/')
  {
    StartsWithSlash(pathname, href);
    assert pathname == href <==> StartsWith(pathname, href) && |pathname| == |href|;
    pathname == href || StartsWith(pathname, href + "/")
  }

  /** A sub-page activates its section, a longer sibling name does not. */
  lemma IsActiveExamples()
    ensures IsActive("/tenants/42", "/tenants")
    ensures !IsActive("/tenantsx", "/tenants")
    ensures IsActive("/tenants", "/tenants")
  {
    assert "/tenants/42"[..9] == "/tenants/";
    assert "/tenantsx"[8] == 'x';
  }

  /** A one-segment href: a leading "/" and no other. */
  predicate OneSegment(href: string) {
    |href| >= 1 && href[0] == '/' && forall k :: 1 <= k < |href| ==> href[k] != '/'
  }

  /** Two one-segment hrefs active on the same path are the same href. */
  lemma ActiveHrefIsUnique(pathname: string, h1: string, h2: string)
    requires OneSegment(h1) && OneSegment(h2)
    requires IsActive(pathname, h1) && IsActive(pathname, h2)
    ensures h1 == h2
  {
    SlashAfterShorterActive(pathname, h1, h2);
    SlashAfterShorterActive(pathname, h2, h1);
    assert |h1| == |h2| ==> h1 == pathname[..|h1|] == h2;
  }

  /** When a shorter href is active, a longer active href has a "/" right after the shorter one's length. */
  lemma SlashAfterShorterActive(pathname: string, h1: string, h2: string)
    requires IsActive(pathname, h1) && IsActive(pathname, h2)
    ensures |h1| < |h2| ==> h2[|h1|] == '/'
  {
    if |h1| < |h2| {
      assert pathname[..|h2|][|h1|] == pathname[|h1|];
    }
  }

  /** Items of a list whose hrefs are distinct one-segment paths: at most one is active at a time. */
  lemma AtMostOneActive(items: seq<NavItem>, pathname: string)
    requires forall i :: 0 <= i < |items| ==> OneSegment(items[i].href)
    requires forall i, j :: 0 <= i < j < |items| ==> items[i].href != items[j].href
    ensures forall i, j :: 0 <= i < |items| && 0 <= j < |items| &&
                           IsActive(pathname, items[i].href) && IsActive(pathname, items[j].href)
                           ==> i == j
  {
    forall i, j | 0 <= i < |items| && 0 <= j < |items| &&
                  IsActive(pathname, items[i].href) && IsActive(pathname, items[j].href)
      ensures i == j
    {
      ActiveHrefIsUnique(pathname, items[i].href, items[j].href);
    }
  }

  /** With the fixed hrefs, at most one main item is highlighted for any path. */
  lemma MainNavHighlightsAtMostOne(pathname: string)
    ensures forall i, j :: 0 <= i < |MainNavItems| && 0 <= j < |MainNavItems| &&
                           IsActive(pathname, MainNavItems[i].href) && IsActive(pathname, MainNavItems[j].href)
                           ==> i == j
  {
    var hs := ["/dashboard", "/tenants", "/leases", "/maintenance", "/analytics"];
    assert forall i :: 0 <= i < 5 ==> MainNavItems[i].href == hs[i];
    assert OneSegment(hs[0]) && OneSegment(hs[1]) && OneSegment(hs[2]) && OneSegment(hs[3]) && OneSegment(hs[4]);
    AtMostOneActive(MainNavItems, pathname);
  }

  /** With the fixed hrefs, at most one secondary item is highlighted for any path. */
  lemma SecondaryNavHighlightsAtMostOne(pathname: string)
    ensures forall i, j :: 0 <= i < |SecondaryNavItems| && 0 <= j < |SecondaryNavItems| &&
                           IsActive(pathname, SecondaryNavItems[i].href) && IsActive(pathname, SecondaryNavItems[j].href)
                           ==> i == j
  {
    var hs := ["/profile", "/settings", "/help"];
    assert forall i :: 0 <= i < 3 ==> SecondaryNavItems[i].href == hs[i];
    assert OneSegment(hs[0]) && OneSegment(hs[1]) && OneSegment(hs[2]);
    AtMostOneActive(SecondaryNavItems, pathname);
  }

  // ---------------------------------------------------------------- collapse

  /** Which icon the collapse button shows. */
  datatype Chevron = ChevronLeft | ChevronRight

  /** Everything the collapse state decides. */
  datatype Layout = Layout(
    widthClass: string,
    brandShown: bool,
    sectionHeadersShown: bool,
    userInfoShown: bool,
    quickActionsShown: bool,
    tooltipClass: string,
    collapseIcon: Chevron)

  /**
   * What the collapse flag decides: narrow with tooltips when collapsed;
   * wide with brand, section headers, user info and quick actions when
   * expanded; the chevron points the way the sidebar would move.
   */
  function LayoutOf(isCollapsed: bool): (l: Layout)
    ensures l.widthClass == "w-16" <==> isCollapsed
    ensures l.widthClass == "w-64" <==> !isCollapsed
    ensures l.tooltipClass == "block" <==> isCollapsed
    ensures l.brandShown <==> !isCollapsed
    ensures l.sectionHeadersShown == l.userInfoShown == l.quickActionsShown == l.brandShown
    ensures l.collapseIcon == ChevronRight <==> isCollapsed
  {
    Layout(if isCollapsed then "w-16" else "w-64",
           !isCollapsed, !isCollapsed, !isCollapsed, !isCollapsed,
           if isCollapsed then "block" else "hidden",
           if isCollapsed then ChevronRight else ChevronLeft)
  }

  /** `item.badge && !isCollapsed`: a badge shows only for a non-empty badge, and only on the wide sidebar. */
  predicate BadgeShown(item: NavItem, isCollapsed: bool)
    ensures BadgeShown(item, isCollapsed) ==> Truthy(item.badge) && LayoutOf(isCollapsed).widthClass == "w-64"
  {
    Truthy(item.badge) && !isCollapsed
  }

  /** Expanded, exactly Tenants, Leases and Maintenance show a badge; collapsed, none does. */
  lemma BadgesShown(isCollapsed: bool)
    ensures forall i :: 0 <= i < |MainNavItems| ==>
              (BadgeShown(MainNavItems[i], isCollapsed) <==> !isCollapsed && 1 <= i <= 3)
  {
  }

  /** The sidebar's collapse state, flipped by both toggle buttons and by the Sidebar primitive's `setOpen`. */
  class DashboardSidebar {
    var isCollapsed: bool

    /** `useState(false)`: the sidebar starts expanded. */
    constructor ()
      ensures !isCollapsed && Open()
    {
      isCollapsed := false;
    }

    /** The `open` prop handed to the Sidebar primitive. */
    function Open(): bool
      reads this
    {
      !isCollapsed
    }

    /** The layout in the current state: everything but the tooltips is shown exactly while the sidebar is open. */
    function CurrentLayout(): (l: Layout)
      reads this
      ensures l.widthClass == "w-64" <==> Open()
      ensures l.tooltipClass == "block" <==> !Open()
      ensures l.brandShown == l.sectionHeadersShown == l.userInfoShown == l.quickActionsShown == Open()
    {
      LayoutOf(isCollapsed)
    }

    /** `setIsCollapsed(!isCollapsed)`, wired to the mobile menu button and to the chevron button. */
    method Toggle()
      modifies this
      ensures isCollapsed == !old(isCollapsed)
      ensures Open() == !old(Open())
    {
      isCollapsed := !isCollapsed;
    }

    /** The `setOpen` callback: `setIsCollapsed(!open)`. */
    method SetOpen(open: bool)
      modifies this
      ensures Open() == open
      ensures isCollapsed == !open
    {
      isCollapsed := !open;
    }
  }

  /** Two toggles restore the original state. */
  method ToggleTwice(s: DashboardSidebar)
    modifies s
    ensures s.isCollapsed == old(s.isCollapsed)
  {
    s.Toggle();
    s.Toggle();
  }
}
