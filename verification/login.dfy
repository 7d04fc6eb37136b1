/** The sign-in decision of the login form's submit handler: blank-input
    validation on trimmed values, then the persisted identity, then the fixed
    demo credential table, with the store write that a demo match makes.
    The simulated one-second delay, toasts and rendering are not modelled; the
    generated id (`Date.now()`) and timestamp (`toISOString()`) are parameters. */
module Login {
  import opened Outcomes
  import opened Text
  import opened Roles
  import opened Storage

  datatype DemoCredential = DemoCredential(email: string, password: string, role: Role, name: string)

  /** The demo table, in the order the handler searches it. */
  const DemoCredentials: seq<DemoCredential> := [
    DemoCredential("user@demo.com", "123456", User, "Demo User"),
    DemoCredential("tech@demo.com", "123456", Technician, "Demo Technician"),
    DemoCredential("admin@demo.com", "123456", Admin, "Demo Admin")
  ]

  /** Placeholder phone number written with every demo identity. */
  const DemoPhone: string := "123-456-7890"

  predicate Matches(c: DemoCredential, email: string, password: string) {
    c.email == email && c.password == password
  }

  /** `Array.prototype.find`: the first entry of `table` whose email and
      password both equal the (untrimmed) inputs. */
  function FindCredential(table: seq<DemoCredential>, email: string, password: string): (r: Option<nat>)
    ensures r.Some? ==> r.value < |table| && Matches(table[r.value], email, password)
    ensures r.Some? ==> forall j :: 0 <= j < r.value ==> !Matches(table[j], email, password)
    ensures r.None? ==> forall j :: 0 <= j < |table| ==> !Matches(table[j], email, password)
  {
    if |table| == 0 then None
    else if Matches(table[0], email, password) then Some(0)
    else match FindCredential(table[1..], email, password)
      case None => None
      case Some(k) => Some(k + 1)
  }

  /** The three demo emails are pairwise distinct, so at most one entry can match. */
  lemma DemoEmailsDistinct()
    ensures forall i, j ::
      (0 <= i < |DemoCredentials| && 0 <= j < |DemoCredentials| &&
       DemoCredentials[i].email == DemoCredentials[j].email) ==> i == j
  {
  }

  lemma AtMostOneDemoMatch(email: string, password: string, i: int, j: int)
    requires 0 <= i < |DemoCredentials| && 0 <= j < |DemoCredentials|
    requires Matches(DemoCredentials[i], email, password)
    requires Matches(DemoCredentials[j], email, password)
    ensures i == j
  {
    DemoEmailsDistinct();
  }

  /** The identity persisted after a demo match: the table entry's fields plus
      the placeholder phone, a generated id and a creation timestamp. */
  function DemoRecord(c: DemoCredential, id: string, now: string): StoredRecord {
    StoredRecord(id, c.name, c.email, c.password, Name(c.role), DemoPhone, now)
  }

  datatype LoginResult =
    | ValidationError     // "Please enter both email and password"; nothing else happens
    | Success(role: string)  // onLoginSuccess(role)
    | InvalidCredentials  // "Invalid email or password"
    | SomethingWentWrong  // the exception path: JSON.parse threw

  /** What one submission leaves behind: its result, the stored value, and the
      form's `isLoading` flag. */
  datatype Attempt = Attempt(result: LoginResult, store: StoredValue, isLoading: bool)

  predicate IsBlankInput(email: string, password: string) {
    Trim(email) == "" || Trim(password) == ""
  }

  /** The stored identity exists and its email and password equal the inputs. */
  predicate StoredMatches(store: StoredValue, email: string, password: string) {
    store.Parsed? && store.record.email == email && store.record.password == password
  }

  /** The demo-table step: persist and report the first matching entry, or fail. */
  function DemoLookup(email: string, password: string, store: StoredValue, id: string, now: string): (LoginResult, StoredValue) {
    match FindCredential(DemoCredentials, email, password)
    case Some(k) =>
      var c := DemoCredentials[k];
      (Success(Name(c.role)), Write(DemoRecord(c, id, now)))
    case None => (InvalidCredentials, store)
  }

  /** Any matching table entry is the one the search returns. */
  lemma DemoLookupFindsEntry(email: string, password: string)
    ensures forall k :: 0 <= k < |DemoCredentials| && Matches(DemoCredentials[k], email, password) ==>
      FindCredential(DemoCredentials, email, password) == Some(k)
  {
    var r := FindCredential(DemoCredentials, email, password);
    forall k | 0 <= k < |DemoCredentials| && Matches(DemoCredentials[k], email, password)
      ensures r == Some(k)
    {
      AtMostOneDemoMatch(email, password, k, r.value);
    }
  }

  /** The part of the handler after validation: the stored identity first, then
      the demo table. Each ensures clause is one branch, stated over the whole
      table rather than over the search. */
  function Authenticate(email: string, password: string, store: StoredValue, id: string, now: string): (r: (LoginResult, StoredValue))
    // unparseable stored value: the generic failure, whatever the credentials
    ensures store.Malformed? ==> r == (SomethingWentWrong, store)
    // matching stored identity: its role, store unchanged (checked before the table)
    ensures StoredMatches(store, email, password) ==> r == (Success(store.record.role), store)
    // demo match: that entry's role, store overwritten with the synthesised identity
    ensures forall k :: (0 <= k < |DemoCredentials| && Matches(DemoCredentials[k], email, password) &&
      !store.Malformed? && !StoredMatches(store, email, password)) ==>
      r == (Success(Name(DemoCredentials[k].role)), Parsed(DemoRecord(DemoCredentials[k], id, now)))
    // no match anywhere: invalid credentials, no store write
    ensures ((forall k :: 0 <= k < |DemoCredentials| ==> !Matches(DemoCredentials[k], email, password)) &&
      !store.Malformed? && !StoredMatches(store, email, password)) ==>
      r == (InvalidCredentials, store)
  {
    DemoLookupFindsEntry(email, password);
    match store
    case Malformed => (SomethingWentWrong, store)
    case Parsed(rec) =>
      if rec.email == email && rec.password == password then (Success(rec.role), store)
      else DemoLookup(email, password, store, id, now)
    case Absent => DemoLookup(email, password, store, id, now)
  }

  /** `handleSubmit`: inputs blank after trimming are rejected with the store
      and the loading flag untouched; every other outcome is the authentication
      result and ends with `isLoading` false. */
  function HandleSubmit(email: string, password: string, store: StoredValue, isLoading: bool, id: string, now: string): (a: Attempt)
    ensures a.result == ValidationError <==> IsBlankInput(email, password)
    ensures a.result == ValidationError ==> a.store == store && a.isLoading == isLoading
    ensures !IsBlankInput(email, password) ==>
      !a.isLoading && (a.result, a.store) == Authenticate(email, password, store, id, now)
  {
    if IsBlankInput(email, password) then
      Attempt(ValidationError, store, isLoading)
    else
      var (result, store') := Authenticate(email, password, store, id, now);
      Attempt(result, store', false)
  }

  /** The role `onLoginSuccess` receives, if it is called at all. */
  function ReportedRole(a: Attempt): Option<string> {
    if a.result.Success? then Some(a.result.role) else None
  }

  /** The store changes only through a demo match, and then holds a demo identity. */
  lemma StoreWrittenOnlyByDemoMatch(email: string, password: string, store: StoredValue, isLoading: bool, id: string, now: string)
    ensures var a := HandleSubmit(email, password, store, isLoading, id, now);
      a.store != store ==>
        a.result.Success? &&
        exists k :: 0 <= k < |DemoCredentials| && Matches(DemoCredentials[k], email, password)
          && a.store == Parsed(DemoRecord(DemoCredentials[k], id, now))
  {
  }

  /** Every success, from either source, leaves a parsed identity in the store
      whose role is exactly the role reported. */
  lemma SuccessLeavesIdentityWithRole(email: string, password: string, store: StoredValue, isLoading: bool, id: string, now: string)
    ensures var a := HandleSubmit(email, password, store, isLoading, id, now);
      a.result.Success? ==> a.store.Parsed? && a.store.record.role == a.result.role
  {
  }

  /** Inputs that pass validation are non-empty, which is why a missing
      email or password field (read as "") can never match. */
  lemma ValidatedInputsNonEmpty(email: string, password: string)
    requires !IsBlankInput(email, password)
    ensures email != "" && password != ""
  {
    TrimNonEmptyImpliesNonEmpty(email);
    TrimNonEmptyImpliesNonEmpty(password);
  }

  /** An all-whitespace input is rejected before anything else happens. */
  lemma WhitespaceOnlyRejected(email: string, password: string, store: StoredValue, isLoading: bool, id: string, now: string)
    requires IsBlank(email) || IsBlank(password)
    ensures HandleSubmit(email, password, store, isLoading, id, now) == Attempt(ValidationError, store, isLoading)
  {
    TrimEmptyIffBlank(email);
    TrimEmptyIffBlank(password);
  }

  /** Validation trims but matching does not: a demo email with whitespace
      added before or after it passes validation and then equals no entry of
      the table, so without a matching stored identity the attempt fails as
      invalid credentials and writes nothing. */
  lemma {:induction false} PaddedDemoEmailMatchesNothing(w: string, k: int, before: bool, password: string,
                                                         store: StoredValue, isLoading: bool, id: string, now: string)
    requires |w| > 0 && IsBlank(w) && 0 <= k < |DemoCredentials| && !IsBlank(password)
    ensures var email := if before then w + DemoCredentials[k].email else DemoCredentials[k].email + w;
      !store.Malformed? && !StoredMatches(store, email, password) ==>
        HandleSubmit(email, password, store, isLoading, id, now) == Attempt(InvalidCredentials, store, false)
  {
    var e := DemoCredentials[k].email;
    var email := if before then w + e else e + w;
    var p := if before then |w| else 0;
    assert email[p] == e[0];
    assert !IsWhitespace(e[0]) by { assert k == 0 || k == 1 || k == 2; }
    TrimEmptyIffBlank(email);
    TrimEmptyIffBlank(password);
    forall j | 0 <= j < |DemoCredentials| ensures DemoCredentials[j].email != email {
      var ej := DemoCredentials[j].email;
      assert j == 0 || j == 1 || j == 2;
      if before {
        assert email[0] == w[0] && IsWhitespace(w[0]) && !IsWhitespace(ej[0]);
      } else {
        assert email[|email| - 1] == w[|w| - 1] && IsWhitespace(w[|w| - 1]) && !IsWhitespace(ej[|ej| - 1]);
      }
    }
  }

  /** The documented administrator login succeeds from an empty store and
      persists an administrator identity with the placeholder phone. */
  lemma AdminDemoLogin(email: string, password: string, id: string, now: string)
    requires email == "admin@demo.com" && password == "123456"
    ensures var a := HandleSubmit(email, password, Absent, false, id, now);
      && a.result == Success("admin")
      && a.store == Parsed(StoredRecord(id, "Demo Admin", email, password, "admin", "123-456-7890", now))
  {
    TrimEmptyIffBlank(email);
    assert !IsWhitespace(email[0]);
    TrimEmptyIffBlank(password);
    assert !IsWhitespace(password[0]);
    assert Matches(DemoCredentials[2], email, password);
  }

  /** A stored identity that happens to carry demo credentials wins over the
      table, even when its role differs from the table's. */
  lemma StoredIdentityWinsOverDemo(rec: StoredRecord, isLoading: bool, id: string, now: string)
    requires rec.email == "admin@demo.com" && rec.password == "123456" && rec.role == "user"
    ensures HandleSubmit(rec.email, rec.password, Parsed(rec), isLoading, id, now)
      == Attempt(Success("user"), Parsed(rec), false)
  {
    TrimEmptyIffBlank(rec.email);
    assert !IsWhitespace(rec.email[0]);
    TrimEmptyIffBlank(rec.password);
    assert !IsWhitespace(rec.password[0]);
  }

  /** An unparseable stored value defeats even the demo credentials. */
  lemma MalformedStoreDefeatsDemo(k: int, isLoading: bool, id: string, now: string)
    requires 0 <= k < |DemoCredentials|
    ensures var c := DemoCredentials[k];
      HandleSubmit(c.email, c.password, Malformed, isLoading, id, now) == Attempt(SomethingWentWrong, Malformed, false)
  {
    var c := DemoCredentials[k];
    TrimEmptyIffBlank(c.email);
    assert !IsWhitespace(c.email[0]);
    TrimEmptyIffBlank(c.password);
    assert !IsWhitespace(c.password[0]);
  }
}
