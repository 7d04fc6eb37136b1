/** The authentication wrapper: the start-up check of the stored identity and
    the login/register screen toggle. The registration form itself is not part
    of this model; only its success callback is. */
module SessionGate {
  import opened Outcomes
  import opened Storage
  import Login

  /** What the start-up check leaves behind: the role handed to `onAuthSuccess`
      (if any) and the stored value afterwards. */
  datatype GateResult = GateResult(reported: Option<string>, store: StoredValue)

  /** The start-up effect. A parsed identity with a truthy (non-empty) role is
      reported; an unparseable value is removed; anything else is left alone. */
  function CheckStoredUser(store: StoredValue): (g: GateResult)
    ensures g.reported.Some? <==> store.Parsed? && store.record.role != ""
    ensures g.reported.Some? ==> g.reported.value == store.record.role
    ensures g.store != store <==> store.Malformed?
    ensures g.store.Absent? || g.store == store
  {
    match store
    case Absent => GateResult(None, store)
    case Malformed => GateResult(None, Remove())
    case Parsed(rec) => if rec.role != "" then GateResult(Some(rec.role), store) else GateResult(None, store)
  }

  /** After the check the store never holds an unparseable value, and running
      the check a second time reports the same role and changes nothing. */
  lemma CheckIsIdempotent(store: StoredValue)
    ensures !CheckStoredUser(store).store.Malformed?
    ensures var g := CheckStoredUser(store);
      CheckStoredUser(g.store) == GateResult(g.reported, g.store)
  {
  }

  /** Which form the wrapper renders. */
  datatype Screen = LoginScreen | RegisterScreen

  /** The wrapper's own state: the `isLogin` flag. */
  datatype Wrapper = Wrapper(isLogin: bool)

  const Initial: Wrapper := Wrapper(true)

  function Render(w: Wrapper): (s: Screen)
    ensures s == LoginScreen <==> w.isLogin
  {
    if w.isLogin then LoginScreen else RegisterScreen
  }

  /** `handleSwitchToRegister`. */
  function SwitchToRegister(w: Wrapper): Wrapper {
    Wrapper(false)
  }

  /** `handleSwitchToLogin`. */
  function SwitchToLogin(w: Wrapper): Wrapper {
    Wrapper(true)
  }

  /** The toggles pick the screen regardless of the prior one, so each is
      idempotent and each undoes the other. */
  lemma SwitchesPickTheScreen(w: Wrapper)
    ensures Render(SwitchToRegister(w)) == RegisterScreen
    ensures Render(SwitchToLogin(w)) == LoginScreen
    ensures SwitchToRegister(SwitchToRegister(w)) == SwitchToRegister(w)
    ensures SwitchToLogin(SwitchToLogin(w)) == SwitchToLogin(w)
    ensures SwitchToLogin(SwitchToRegister(w)) == Initial
  {
  }

  /** Application start: the wrapper's first screen and what the check reports. */
  datatype Startup = Startup(screen: Screen, reported: Option<string>, store: StoredValue)

  function Start(store: StoredValue): (s: Startup)
    ensures s.screen == LoginScreen
    ensures s.reported.Some? <==> store.Parsed? && store.record.role != ""
    ensures s.reported.Some? ==> s.reported.value == store.record.role
    ensures store.Malformed? ==> s.store.Absent?
    ensures !store.Malformed? ==> s.store == store
    ensures store.Absent? ==> s.reported.None? && s.store.Absent?
  {
    var g := CheckStoredUser(store);
    Startup(Render(Initial), g.reported, g.store)
  }

  /** `handleAuthSuccess`, reached from the login form: the role the login
      decided on is what the wrapper reports, unchanged; no other outcome
      reports anything. */
  function LoginThroughWrapper(email: string, password: string, store: StoredValue, isLoading: bool, id: string, now: string): (r: Option<string>)
    ensures var a := Login.HandleSubmit(email, password, store, isLoading, id, now);
      (r.Some? <==> a.result.Success?) && (r.Some? ==> r.value == a.result.role)
  {
    Login.ReportedRole(Login.HandleSubmit(email, password, store, isLoading, id, now))
  }

  /** A successful login leaves the store in a state the next start-up accepts
      with the very same role, provided the role is non-empty (every demo role is). */
  lemma LoginThenRestart(email: string, password: string, store: StoredValue, isLoading: bool, id: string, now: string)
    ensures var a := Login.HandleSubmit(email, password, store, isLoading, id, now);
      a.result.Success? && a.result.role != "" ==> CheckStoredUser(a.store).reported == Some(a.result.role)
  {
    Login.SuccessLeavesIdentityWithRole(email, password, store, isLoading, id, now);
  }
}
