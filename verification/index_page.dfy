/** The role-switching page: its `currentRole` state, the role-to-view
    dispatch, and the sidebar wiring. It performs no authentication and no
    storage access; a role change is plain navigation state. */
module IndexPage {
  import opened Roles
  import Sidebar

  datatype View = UserPortalView | TechnicianDashboardView | AdminPanelView

  /** The view a role is meant to show; the reference for the dispatch. */
  function ViewFor(r: Role): View {
    match r
    case User => UserPortalView
    case Technician => TechnicianDashboardView
    case Admin => AdminPanelView
  }

  /** `renderContent`: the `switch` over `currentRole`, whose default branch
      shows the user portal for any value that is not a role name. */
  function RenderContent(currentRole: string): (v: View)
    ensures v == TechnicianDashboardView <==> currentRole == "technician"
    ensures v == AdminPanelView <==> currentRole == "admin"
    ensures v == UserPortalView <==> currentRole != "technician" && currentRole != "admin"
  {
    if currentRole == "user" then UserPortalView
    else if currentRole == "technician" then TechnicianDashboardView
    else if currentRole == "admin" then AdminPanelView
    else UserPortalView
  }

  /** Dispatch agrees with the reference on every role name and falls back to
      the user portal on everything else. */
  lemma DispatchMatchesRoles(currentRole: string)
    ensures Parse(currentRole).Some? ==> RenderContent(currentRole) == ViewFor(Parse(currentRole).value)
    ensures Parse(currentRole).None? ==> RenderContent(currentRole) == UserPortalView
  {
  }

  /** The view determines the role it came from, so distinct roles show
      distinct views. */
  lemma ViewForInjective(a: Role, b: Role)
    ensures ViewFor(a) == ViewFor(b) <==> a == b
  {
  }

  /** The page's state: the selected role and the sidebar's menu. */
  datatype Page = Page(currentRole: string, menu: Sidebar.Menu)

  const Initial: Page := Page(Name(User), Sidebar.Closed)

  /** A click on a sidebar entry: `onRoleChange` is `setCurrentRole`, and the
      sidebar closes its menu. */
  function SelectRole(p: Page, item: Sidebar.Item): (p': Page)
    ensures p'.currentRole == Name(item.role)
    ensures !p'.menu.isOpen
  {
    var (role, menu) := Sidebar.ClickItem(p.menu, item);
    Page(Name(role), menu)
  }

  /** The page starts on the user portal with the user entry active. */
  lemma InitialPage()
    ensures RenderContent(Initial.currentRole) == UserPortalView
    ensures Sidebar.ActivePositions(Sidebar.Items(Initial.currentRole)) == {0}
    ensures !Initial.menu.isOpen
  {
    Sidebar.ExactlyOneActive(Initial.currentRole);
  }

  /** After clicking any entry, the page shows that entry's view and the
      sidebar marks exactly that entry active. */
  lemma SelectRoleShowsItsView(p: Page, item: Sidebar.Item)
    ensures RenderContent(SelectRole(p, item).currentRole) == ViewFor(item.role)
    ensures Sidebar.ActivePositions(Sidebar.Items(SelectRole(p, item).currentRole))
      == {Sidebar.IndexOf(item.role)}
  {
    ParseName(item.role);
    DispatchMatchesRoles(Name(item.role));
    Sidebar.ExactlyOneActive(Name(item.role));
  }
}
