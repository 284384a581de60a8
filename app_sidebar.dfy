/**
 * The application sidebar: a constant table of navigation items, each allowed
 * for some roles, filtered by the signed-in user's role.
 */
module AppSidebar {
  import opened Wrappers
  import opened Lists

  /** `AppRole`. */
  datatype Role = Admin | Operator | Viewer

  datatype NavItem = NavItem(title: string, url: string, roles: seq<Role>)

  /** `navItems`, in display order. */
  const NavItems: seq<NavItem> := [
    NavItem("لوحة التحكم", "/", [Admin, Operator, Viewer]),
    NavItem("الكشك", "/kiosk", [Admin, Operator]),
    NavItem("المتدربون", "/trainees", [Admin, Operator, Viewer]),
    NavItem("التقارير", "/reports", [Admin, Operator, Viewer]),
    NavItem("الإعدادات", "/settings", [Admin])]

  /** `role && item.roles.includes(role)`. */
  predicate Shows(role: Option<Role>, item: NavItem) {
    role.Some? && role.value in item.roles
  }

  /** The filter callback for one role. */
  function ShownTo(role: Option<Role>): (keep: NavItem -> bool)
    ensures forall item :: keep(item) <==> role.Some? && role.value in item.roles
  {
    item => Shows(role, item)
  }

  /** `visibleItems`: the items whose roles include the current role, in table order. */
  function VisibleItems(role: Option<Role>): (r: seq<NavItem>)
    ensures forall i :: 0 <= i < |r| ==> r[i] in NavItems && Shows(role, r[i])
    ensures forall i :: 0 <= i < |NavItems| ==> (NavItems[i] in r <==> Shows(role, NavItems[i]))
  {
    Filter(NavItems, ShownTo(role))
  }

  /** Without a role nothing is shown. */
  lemma NoRoleNoItems()
    ensures VisibleItems(None) == []
  {
    FilterNone(NavItems, ShownTo(None));
  }

  /** An admin sees all five items, in table order. */
  lemma AdminSeesAll()
    ensures VisibleItems(Some(Admin)) == NavItems && |VisibleItems(Some(Admin))| == 5
  {
    FilterAll(NavItems, ShownTo(Some(Admin)));
  }

  /** An operator sees everything but the settings, in table order. */
  lemma OperatorItems()
    ensures VisibleItems(Some(Operator)) == NavItems[..4]
  {
    FilterPrefix(NavItems, 4, ShownTo(Some(Operator)));
  }

  /** Of the first two items a viewer sees only the dashboard. */
  lemma ViewerHead()
    ensures Filter(NavItems[..2], ShownTo(Some(Viewer))) == [NavItems[0]]
  {
    FilterPrefix(NavItems[..2], 1, ShownTo(Some(Viewer)));
  }

  /** Of the last three items a viewer sees the trainees and the reports. */
  lemma ViewerTail()
    ensures Filter(NavItems[2..], ShownTo(Some(Viewer))) == [NavItems[2], NavItems[3]]
  {
    FilterPrefix(NavItems[2..], 2, ShownTo(Some(Viewer)));
  }

  /** A viewer sees the dashboard, the trainees and the reports, in table order. */
  lemma ViewerItems()
    ensures VisibleItems(Some(Viewer)) == [NavItems[0], NavItems[2], NavItems[3]]
  {
    FilterSplitAt(NavItems, 2, ShownTo(Some(Viewer)));
    ViewerHead();
    ViewerTail();
  }

  /** The settings item is shown to an admin only. */
  lemma SettingsAdminOnly(role: Option<Role>)
    ensures NavItems[4].url == "/settings"
    ensures NavItems[4] in VisibleItems(role) <==> role == Some(Admin)
  {
  }

  /** The kiosk item is shown to admins and operators but not to viewers. */
  lemma KioskNotForViewers(role: Option<Role>)
    ensures NavItems[1].url == "/kiosk"
    ensures NavItems[1] in VisibleItems(role) <==> role == Some(Admin) || role == Some(Operator)
  {
  }

  /** Dashboard, trainees and reports are shown to every signed-in role. */
  lemma CommonItems(role: Role)
    ensures NavItems[0] in VisibleItems(Some(role))
    ensures NavItems[2] in VisibleItems(Some(role))
    ensures NavItems[3] in VisibleItems(Some(role))
  {
  }
}
