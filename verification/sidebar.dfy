/** The navigation sidebar: one entry per role in a fixed order, the active
    entry, and the open/closed state of the mobile menu. */
module Sidebar {
  import opened Roles

  /** The order of the entries, as the configuration object lists them. */
  const RoleOrder: seq<Role> := [User, Technician, Admin]

  datatype Item = Item(role: Role, title: string, description: string, active: bool)

  function Label(r: Role): string {
    match r
    case User => "User Portal"
    case Technician => "Technician"
    case Admin => "Admin Panel"
  }

  function Description(r: Role): string {
    match r
    case User => "Report issues"
    case Technician => "Manage tasks"
    case Admin => "System overview"
  }

  /** The rendered entries for the page's `currentRole`: an entry is active when
      its role's name equals `currentRole`. */
  function Items(currentRole: string): (items: seq<Item>)
    ensures |items| == |RoleOrder|
    ensures forall i :: 0 <= i < |items| ==> items[i].role == RoleOrder[i]
    ensures forall i :: 0 <= i < |items| ==> (items[i].active <==> Name(items[i].role) == currentRole)
  {
    seq(|RoleOrder|, i requires 0 <= i < |RoleOrder| =>
      Item(RoleOrder[i], Label(RoleOrder[i]), Description(RoleOrder[i]), Name(RoleOrder[i]) == currentRole))
  }

  /** The sidebar offers every role exactly once. */
  lemma RoleOrderListsEachRoleOnce(r: Role)
    ensures r in RoleOrder
    ensures forall i, j :: 0 <= i < j < |RoleOrder| ==> RoleOrder[i] != RoleOrder[j]
  {
  }

  /** Positions of the active entries. */
  function ActivePositions(items: seq<Item>): set<nat> {
    set p: nat | p < |items| && items[p].active
  }

  /** For a role name exactly one entry is active, the one for that role; for
      any other value none is. */
  lemma ExactlyOneActive(currentRole: string)
    ensures Parse(currentRole).Some? ==>
      ActivePositions(Items(currentRole)) == {IndexOf(Parse(currentRole).value)}
    ensures Parse(currentRole).None? ==> ActivePositions(Items(currentRole)) == {}
  {
    var items := Items(currentRole);
    forall p: nat | p < |items|
      ensures items[p].active <==> (Parse(currentRole).Some? && p == IndexOf(Parse(currentRole).value))
    {
      ParseName(items[p].role);
    }
  }

  /** Where a role's entry sits. */
  function IndexOf(r: Role): (i: nat)
    ensures i < |RoleOrder| && RoleOrder[i] == r
  {
    match r
    case User => 0
    case Technician => 1
    case Admin => 2
  }

  /** The mobile menu (`isOpen`); the overlay is shown exactly while it is open. */
  datatype Menu = Menu(isOpen: bool)

  const Closed: Menu := Menu(false)

  /** The menu button. */
  function Toggle(m: Menu): (m': Menu)
    ensures m'.isOpen != m.isOpen
  {
    Menu(!m.isOpen)
  }

  /** A click on the overlay. */
  function ClickOverlay(m: Menu): (m': Menu)
    ensures !m'.isOpen
  {
    Menu(false)
  }

  /** A click on an entry: the role handed to `onRoleChange`, and the menu
      closed. */
  function ClickItem(m: Menu, item: Item): (r: (Role, Menu))
    ensures r.0 == item.role && !r.1.isOpen
    ensures r.1 == ClickOverlay(m)
  {
    (item.role, Menu(false))
  }

  /** Toggling twice restores the menu; a click on an entry always leaves it
      closed and reports that entry's role. */
  lemma MenuTransitions(m: Menu, item: Item)
    ensures Toggle(Toggle(m)) == m
    ensures ClickItem(m, item) == (item.role, Closed)
    ensures Toggle(Closed).isOpen
  {
  }
}
