/** The dashboard header: reading the current identity, the logout action and
    the role label shown next to the user's name. */
module DashboardHeader {
  import opened Outcomes
  import opened Storage
  import opened Text
  import SessionGate

  /** `getCurrentUser`: the parsed identity, or null when nothing is stored or
      the stored value does not parse. */
  function GetCurrentUser(store: StoredValue): (u: Option<StoredRecord>)
    ensures u.Some? <==> store.Parsed?
    ensures u.Some? ==> u.value == store.record
  {
    match store
    case Parsed(rec) => Some(rec)
    case _ => None
  }

  /** The observable steps of `handleLogout`, in the order they happen. */
  datatype LogoutStep = RemoveStoredUser | NotifyLoggedOut | CallOnLogout

  datatype LogoutOutcome = LogoutOutcome(store: StoredValue, steps: seq<LogoutStep>)

  /** `handleLogout`: remove the identity, toast, then call `onLogout`. */
  function HandleLogout(store: StoredValue): (o: LogoutOutcome)
    ensures o.store.Absent?
    ensures GetCurrentUser(o.store).None? && SessionGate.CheckStoredUser(o.store).reported.None?
    ensures |o.steps| == 3 && o.steps[0] == RemoveStoredUser && o.steps[|o.steps| - 1] == CallOnLogout
    ensures multiset(o.steps)[CallOnLogout] == 1
  {
    LogoutOutcome(Remove(), [RemoveStoredUser, NotifyLoggedOut, CallOnLogout])
  }


  /** Whatever was stored, after logout the next start-up reports no role and
      shows the login form. */
  lemma LogoutThenRestartShowsLogin(store: StoredValue)
    ensures var s := SessionGate.Start(HandleLogout(store).store);
      s.reported.None? && s.screen == SessionGate.LoginScreen
  {
  }

  /** `user.role.charAt(0).toUpperCase() + user.role.slice(1)`. */
  function RoleLabel(role: string): string {
    Capitalize(role)
  }

  /** The header's use of `Capitalize`: the first two clauses carry its
      general shape over to the label, and the point of the lemma is the
      three role names, which come out as the header shows them. */
  lemma RoleLabelShape(role: string)
    ensures |RoleLabel(role)| == |role|
    ensures |role| > 0 ==> RoleLabel(role)[0] == ToUpper(role[0]) && RoleLabel(role)[1..] == role[1..]
    ensures role == "technician" ==> RoleLabel(role) == "Technician"
    ensures role == "user" ==> RoleLabel(role) == "User"
    ensures role == "admin" ==> RoleLabel(role) == "Admin"
  {
  }

  datatype HeaderView = HeaderView(name: string, roleLabel: string, email: string)

  /** The header renders nothing without a current user, and otherwise shows
      that user's name, role label and email. */
  function Render(store: StoredValue): (h: Option<HeaderView>)
    ensures h.None? <==> GetCurrentUser(store).None?
    ensures h.Some? ==> var u := GetCurrentUser(store).value;
      h.value == HeaderView(u.name, RoleLabel(u.role), u.email)
  {
    match GetCurrentUser(store)
    case None => None
    case Some(u) => Some(HeaderView(u.name, RoleLabel(u.role), u.email))
  }

  /** Whatever was stored, the header rendered after logout shows nothing,
      while before logout it showed exactly when an identity parsed. */
  lemma LogoutHidesHeader(store: StoredValue)
    ensures Render(HandleLogout(store).store).None?
    ensures Render(store).Some? <==> store.Parsed?
  {
  }
}
