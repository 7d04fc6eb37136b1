# Maintenance portal: decision logic in Dafny

This project models the small amount of decision logic in a role-based
maintenance-request portal (users report issues, technicians work them, admins
watch the totals). It is a client-side single-page application. Its logic sits
in event handlers, and here it becomes pure functions over explicit state:

- **Login** (`Login`, login.dfy): the submit handler of the login form. Blank
  input is rejected after trimming. The handler then tries the persisted
  identity, then a fixed table of three demo credentials. A demo match
  persists a synthesised identity.
- **Session gate** (`SessionGate`, auth_wrapper.dfy): the start-up check of the
  persisted identity and the login/register toggle of the authentication
  wrapper.
- **Dashboard header** (`DashboardHeader`): reading the current identity,
  logout, and the capitalised role label.
- **Role dispatch** (`IndexPage`, `Sidebar`): the page's `currentRole`, the
  role-to-view switch with its default branch, the sidebar entries and their
  active marker, and the mobile menu.
- **Issue report** (`UserPortal`): the ordered form validation, including the
  email pattern `^[^\s@]+@[^\s@]+\.[^\s@]+$`, the multipart payload, and the
  reset or preserve behaviour after submission.
- **Technician workflow** (`TechnicianDashboard`): the assignee filter, the
  status update by issue id, the in-flight marker, and which button each status
  offers.
- **Admin statistics** (`AdminPanel`): list coercion of non-array bodies, and
  the counts.
- **Status badge** (`StatusBadge`): the seven-status table of labels and colour
  classes, and the badge's class list.

Side effects become data:

- The browser store entry `currentUser` is a `StoredValue`: `Absent`,
  `Parsed(record)` or `Malformed`.
  - `Malformed` stands for a value on which `JSON.parse` throws, and also for
    the stored text `null`. The login handler and the start-up check read a
    field of the parsed `null` inside their `try`, which throws, so they take
    their catch branch: the generic failure, and removal. The header reads no
    field; it tests the parsed `null` as falsy and shows no user, just as it
    does when parsing throws.
  - `Absent` stands for nothing stored and for every value each reader treats
    as nothing. An empty string is falsy before parsing. A JSON value that
    parses to `0`, `false` or `""` has no field that matches or names a role,
    and the header tests it as falsy.
- A field missing from the stored JSON reads as `""`. The login handler and
  the start-up check treat a missing field and `""` alike. A missing role is
  falsy either way. A missing email or password can never equal a validated
  input, because inputs that pass validation are non-empty
  (`Login.ValidatedInputsNonEmpty`). The header's role label is the exception;
  see `DashboardHeader.Render` under "Left out".
- Every HTTP call is a `Call<T>`: `Ok(body)` or `Failed`.
- Generated ids and timestamps are parameters.
- `\s` and `trim()` use one explicit character class: the ECMAScript
  WhiteSpace and LineTerminator code points (`Text.IsWhitespace`).

Three facts about the code shape the model:

- The start-up check removes the stored value only when the `try` fails, that
  is, when parsing throws or the value is `null`. It leaves a record that
  parses but has no role in place and does not report it.
- A login that matches the persisted identity writes nothing. Only a demo
  match writes to the store.
- The role page (src/pages/Index.tsx) has no authentication gate. So the gate
  (`SessionGate`) and the dispatch (`IndexPage`) are modelled as separate
  pieces, and a sidebar role change touches neither the store nor the gate.

## Model

| member | source | states |
|---|---|---|
| Text.TrimStartSpec | src/components/LoginForm.tsx:23 | leading trim keeps a suffix, drops only whitespace, and stops at a non-whitespace character |
| Text.TrimEndSpec | src/components/LoginForm.tsx:23 | trailing trim keeps a prefix, drops only whitespace, and stops at a non-whitespace character |
| Text.TrimEmptyIffBlank | src/components/LoginForm.tsx:23 | `!s.trim()` holds exactly when every character of `s` is whitespace |
| Login.FindCredential | src/components/LoginForm.tsx:59-61 | the search returns the first entry whose email and password equal the untrimmed inputs, or reports that none does |
| Login.AtMostOneDemoMatch | src/components/LoginForm.tsx:53-61 | the demo emails are distinct, so two matching entries are the same entry |
| Login.Authenticate | src/components/LoginForm.tsx:38-89 | an unparseable store gives the generic failure; a matching stored identity wins with its role and no write; otherwise a matching demo entry wins with its role and overwrites the store with that entry plus phone, id and timestamp; otherwise "invalid credentials" with no write |
| Login.HandleSubmit | src/components/LoginForm.tsx:20-93 | a validation error happens exactly when a trimmed input is empty, and then the store and loading flag are untouched; every other outcome is the authentication result with loading false |
| Login.StoreWrittenOnlyByDemoMatch | src/components/LoginForm.tsx:63-69 | any change to the store is a success through some matching demo entry, and the store then holds that entry's synthesised identity |
| Login.SuccessLeavesIdentityWithRole | src/components/LoginForm.tsx:39-75 | after any success the store holds a parsed identity whose role is the reported role |
| Login.ValidatedInputsNonEmpty | src/components/LoginForm.tsx:23-30 | inputs that pass validation are non-empty strings |
| Login.WhitespaceOnlyRejected | src/components/LoginForm.tsx:23-30 | an all-whitespace email or password is rejected, with the store and loading flag unchanged |
| Login.PaddedDemoEmailMatchesNothing | src/components/LoginForm.tsx:23-82 | a demo email with whitespace added before or after it passes validation but equals no table entry, so without a matching stored identity the attempt fails as invalid credentials and writes nothing |
| Login.AdminDemoLogin | src/components/LoginForm.tsx:53-75 | admin@demo.com / 123456 from an empty store succeeds as "admin" and persists the admin identity with phone 123-456-7890 |
| Login.StoredIdentityWinsOverDemo | src/components/LoginForm.tsx:39-61 | a stored identity with demo credentials but role "user" wins over the demo table's admin entry, and the store is unchanged |
| Login.MalformedStoreDefeatsDemo | src/components/LoginForm.tsx:39-89 | with an unparseable store, every demo credential ends in the generic failure |
| SessionGate.CheckStoredUser | src/components/AuthWrapper.tsx:13-26 | a role is reported exactly for a parsed identity with a non-empty role, and it is that role; the store changes exactly when it was unparseable, and it is then cleared |
| SessionGate.CheckIsIdempotent | src/components/AuthWrapper.tsx:13-26 | after the check no unparseable value remains, and a second check reports the same role and changes nothing |
| SessionGate.SwitchesPickTheScreen | src/components/AuthWrapper.tsx:32-53 | switching to register shows the register form and switching to login shows the login form; each switch is idempotent, and register then login restores the initial state |
| SessionGate.Start | src/components/AuthWrapper.tsx:10-47 | start-up shows the login form first; it reports exactly a stored identity's non-empty role, removes an unusable stored value and leaves anything else in place; with nothing stored, nothing is reported and the store stays empty |
| SessionGate.LoginThroughWrapper | src/components/AuthWrapper.tsx:28-47 | the wrapper reports a role exactly when the login succeeded, and it is the login's role, unchanged |
| SessionGate.LoginThenRestart | src/components/AuthWrapper.tsx:14-20 | after a login success with a non-empty role, the next start-up check reports that same role |
| DashboardHeader.GetCurrentUser | src/components/DashboardHeader.tsx:14-21 | the current user is the stored identity when it parses, and null when the store is empty or unparseable |
| DashboardHeader.HandleLogout | src/components/DashboardHeader.tsx:25-32 | whatever was stored, logout empties the store, so there is no current user and nothing for the start-up check to report; it removes the identity first and calls `onLogout` exactly once, last |
| DashboardHeader.LogoutThenRestartShowsLogin | src/components/DashboardHeader.tsx:25-32 | whatever was stored, after logout the next start-up reports no role and shows the login form |
| DashboardHeader.RoleLabelShape | src/components/DashboardHeader.tsx:47 | the role label has the role's length, its first character upper-cased and the rest unchanged; "technician", "user" and "admin" become "Technician", "User" and "Admin" |
| DashboardHeader.Render | src/components/DashboardHeader.tsx:34-51 | the header renders nothing exactly when there is no current user, and otherwise shows that user's name, role label and email |
| DashboardHeader.LogoutHidesHeader | src/components/DashboardHeader.tsx:25-34 | the header shows exactly when a stored identity parses, and after logout it shows nothing whatever was stored |
| IndexPage.RenderContent | src/pages/Index.tsx:12-23 | the technician view appears exactly for "technician" and the admin view exactly for "admin"; every other value, "user" included, shows the user portal |
| IndexPage.DispatchMatchesRoles | src/pages/Index.tsx:12-23 | dispatch agrees with the role-to-view reference on every role name, and falls back to the user portal on any other value |
| IndexPage.ViewForInjective | src/pages/Index.tsx:12-23 | distinct roles show distinct views |
| IndexPage.SelectRole | src/pages/Index.tsx:28 | a sidebar click sets `currentRole` to the clicked role's name and closes the menu |
| IndexPage.InitialPage | src/pages/Index.tsx:10 | the page starts on "user": the user portal is shown, only the user entry is active, and the menu is closed |
| IndexPage.SelectRoleShowsItsView | src/pages/Index.tsx:28-32 | after a click on any entry, that entry's view is shown and exactly that entry is active |
| Sidebar.Items | src/components/Sidebar.tsx:67-69 | there is one entry per configured role, in configuration order, and an entry is active exactly when its role name equals `currentRole` |
| Sidebar.RoleOrderListsEachRoleOnce | src/components/Sidebar.tsx:13-29 | the entries cover every role, each exactly once |
| Sidebar.ExactlyOneActive | src/components/Sidebar.tsx:69 | for a role name exactly one entry is active, the one for that role; for any other value none is |
| Sidebar.Toggle | src/components/Sidebar.tsx:41 | the menu button flips `isOpen` |
| Sidebar.ClickOverlay | src/components/Sidebar.tsx:47-50 | an overlay click leaves the menu closed |
| Sidebar.ClickItem | src/components/Sidebar.tsx:74-76 | an entry click hands that entry's role to `onRoleChange` and closes the menu, as an overlay click would |
| Sidebar.MenuTransitions | src/components/Sidebar.tsx:32-77 | toggling twice restores the menu; opening a closed menu opens it; an entry click reports that entry's role and leaves the menu closed |
| StatusBadge.TableIsTotal | src/components/StatusBadge.tsx:3-42 | every one of the seven statuses has a table entry under its own key, and the keys are distinct |
| StatusBadge.FromKey | src/components/StatusBadge.tsx:10-42 | a key found in the table belongs to the status it yields |
| StatusBadge.ColorClassesFollowTones | src/components/StatusBadge.tsx:19-38 | two statuses share a colour class exactly when they share a colour family: resolved with available, and in_progress with busy and progress |
| StatusBadge.ConfigOf | src/components/StatusBadge.tsx:10-39 | the label reads "In Progress" exactly for the in_progress and progress statuses |
| StatusBadge.ColorClassIsToneClass | src/components/StatusBadge.tsx:10-39 | every status's colour class is its family's theme colour as background, with white text |
| StatusBadge.LabelsDistinctButProgress | src/components/StatusBadge.tsx:10-39 | labels are distinct except that in_progress and progress both read "In Progress" |
| StatusBadge.Classes | src/components/StatusBadge.tsx:46-50 | the class list is the base classes, then the status's colour class, then the caller's class, and the caller's class appears exactly when it is present and non-empty |
| StatusBadge.OfTechnician | src/components/AdminPanel.tsx:227 | a technician's badge shows "resolved" exactly when available and "progress" exactly when busy |
| StatusBadge.OfIssue | src/components/TechnicianDashboard.tsx:149 | an issue badge shows the issue's own status: its key is the issue's wire status and looks up to that badge status; it is drawn in the resolved colour exactly for a resolved issue |
| StatusBadge.TechnicianBadgeLooks | src/components/TechnicianDashboard.tsx:118-120 | the technician badge is in the resolved colour family exactly for an available technician; it reads "In Progress" when busy and "Resolved" when available |
| TechnicianDashboard.AssignedTo | src/components/TechnicianDashboard.tsx:48-50 | the filter keeps only issues assigned to the given name, drawn from the input, and is never longer than the input |
| TechnicianDashboard.AssignedToKeepsAll | src/components/TechnicianDashboard.tsx:48-50 | an issue is kept exactly when it is in the input and assigned to the given name |
| TechnicianDashboard.AssignedToConcat | src/components/TechnicianDashboard.tsx:48-50 | filtering a concatenation concatenates the filtered parts, so the original order is kept |
| TechnicianDashboard.FetchData | src/components/TechnicianDashboard.tsx:36-62 | loading ends; on a failed request or an empty technician list the issues and technician are unchanged; otherwise the first technician is current and the issues are the assignee filter of the fetched list, so exactly the fetched issues assigned to it |
| TechnicianDashboard.SetStatus | src/components/TechnicianDashboard.tsx:71-73 | the length is kept, issues with the given id get the new status with all other fields kept, and every other issue is unchanged |
| TechnicianDashboard.SetStatusIdempotent | src/components/TechnicianDashboard.tsx:71-73 | applying the same update twice equals applying it once |
| TechnicianDashboard.SetStatusCommutes | src/components/TechnicianDashboard.tsx:71-73 | updates of different ids commute |
| TechnicianDashboard.BeginUpdate | src/components/TechnicianDashboard.tsx:65 | pressing a button marks its issue id as in flight and leaves the issues, the technician and the loading flag alone |
| TechnicianDashboard.FinishUpdate | src/components/TechnicianDashboard.tsx:66-87 | the in-flight marker is cleared; a failure leaves the issues unchanged and a success applies the status update; technician and loading flag are unchanged |
| TechnicianDashboard.UpdateIssueStatus | src/components/TechnicianDashboard.tsx:64-88 | after the update nothing is in flight and the length is kept; a failure changes no issue; a success changes exactly the status of the issues with that id; the technician and the loading flag are never touched |
| TechnicianDashboard.ButtonsEndAtResolved | src/components/TechnicianDashboard.tsx:176-195 | pending and resolved issues offer no button, and pressing the offered buttons in turn always ends at resolved |
| TechnicianDashboard.ActionFor | src/components/TechnicianDashboard.tsx:176-195 | a button is offered exactly for an assigned or in-progress issue, and the status it requests is one rank further along the workflow |
| TechnicianDashboard.InFlightDisablesOnlyThatIssue | src/components/TechnicianDashboard.tsx:176-195 | during a single update exactly the issues with that id have disabled buttons, and once it settles none do |
| TechnicianDashboard.OverlappingUpdatesShareOneSlot | src/components/TechnicianDashboard.tsx:64-87 | with a second update started before the first settles, the first issue's buttons are enabled again, and the first settling clears the slot for every issue |
| TechnicianDashboard.ButtonAdvancesOnlyItsIssue | src/components/TechnicianDashboard.tsx:64-195 | with distinct ids and a successful request, pressing an issue's button moves that issue one step forward and leaves every other issue as it was |
| AdminPanel.AsList | src/components/AdminPanel.tsx:72-74 | a non-array body becomes the empty list, and an array body is kept as is |
| AdminPanel.ComputeStats | src/components/AdminPanel.tsx:80-85 | the totals are the list lengths, the available count plus an independent busy count is the technician total, and the two totals coincide exactly when every technician is available |
| AdminPanel.AvailableOnly | src/components/AdminPanel.tsx:84 | a technician is kept exactly when it is in the input and available, and the result is never longer than the input |
| AdminPanel.AvailablePlusBusy | src/components/AdminPanel.tsx:84 | available count plus busy count equals the number of technicians |
| AdminPanel.AllAvailableIffNoneBusy | src/components/AdminPanel.tsx:84 | the available count equals the technician count exactly when every technician is available |
| AdminPanel.FetchAllData | src/components/AdminPanel.tsx:64-96 | loading ends; any failed request leaves lists and statistics as they were; otherwise the lists are the coerced bodies and the statistics are those of the new lists: the totals are their lengths, and the available count is at most the technician count |
| AdminPanel.FetchKeepsStatsInStep | src/components/AdminPanel.tsx:51-92 | the initial statistics are zero and describe the empty lists, and every fetch, successful or failed, keeps the statistics describing the lists held |
| AdminPanel.NonArrayCountsAsEmpty | src/components/AdminPanel.tsx:72-84 | a non-array technician body gives an empty list and zero technician counts |
| UserPortal.EmailTestSound | src/components/UserPortal.tsx:59-60 | every address the split test accepts matches the pattern read as run, "@", run, ".", run |
| UserPortal.IsValidEmail | src/components/UserPortal.tsx:59-60 | an accepted address has at least five characters, contains no whitespace and has exactly one '@', which is not its first character |
| UserPortal.EmailTestComplete | src/components/UserPortal.tsx:59-60 | every address built as run, "@", run, ".", run of non-space, non-@ characters is accepted |
| UserPortal.EmailTestMatchesPattern | src/components/UserPortal.tsx:59-60 | the email test accepts exactly the strings the pattern matches |
| UserPortal.ValidateForm | src/components/UserPortal.tsx:40-70 | an empty name, email or phone fails first; an empty description fails only once those are present; a pattern mismatch fails only after both; the form is valid exactly when all three checks pass |
| UserPortal.DetailsCheckedBeforeDescription | src/components/UserPortal.tsx:41-57 | with a user detail missing, the result is the user-details failure whatever the description |
| UserPortal.IssuePayload | src/components/UserPortal.tsx:81-86 | the body is description, then `user_email` equal to the form's email, then an image part exactly when an image was chosen |
| UserPortal.PayloadHasImageIffImage | src/components/UserPortal.tsx:84-86 | some part is keyed "image" exactly when the form has an image |
| UserPortal.SubmitIssue | src/components/UserPortal.tsx:72-111 | an invalid form sends nothing and changes nothing; a valid one sends the user request, then the issue request only if that succeeded, and ends not submitting; full success resets the form and preview and records the receipt; any failure keeps the portal as it was |
| UserPortal.SubmitAnother | src/components/UserPortal.tsx:134-139 | the success card is dismissed and the form, preview and submitting flag are kept, so the portal is back to its initial state exactly when the form had been reset |
| UserPortal.ResubmitAfterSuccessSendsNothing | src/components/UserPortal.tsx:98-100 | after a successful submission, submitting again without editing sends no request |
| UserPortal.RetryAfterFailureResendsSameRequests | src/components/UserPortal.tsx:102-110 | after a failed user request, retrying sends the same user and issue requests |

## Left out

- Rendering, toasts, icons and styling other than the badge's class list. Outcomes are result datatypes instead.
- The one-second simulated delay before a login is decided, and the asynchrony of every request. Each handler is modelled as one step from its inputs to its final state.
- `Promise.all` concurrency. Parallel requests are modelled as a joint outcome: they succeed together, or the handler takes its catch branch.
- The backend, `JSON.parse` and `JSON.stringify`. Parsing is a given `StoredValue`. The stored text `null` is folded into `Malformed`, and a JSON value that parses to `0`, `false` or `""` into `Absent`. Any other stored number, string, boolean or array parses and reads every field as missing, so for the login handler and the start-up check it behaves like a record whose fields are all `""`.
- A `setItem` that throws (for example when storage is full). The model assumes the write succeeds.
- The registration form. It is not part of this model. Only the wrapper's screen toggle is modelled, and the wrapper forwards a role unchanged from either form.
- The page that would combine the session gate with the dashboard header. It is not part of this model.
- The FileReader image preview (modelled as an opaque optional data URL) and `FormData` encoding beyond which parts are present and in what order.
- Marketing pages and components (landing page, header, hero, about, artworks, carousel, footer): they contain no decision logic.
- The technician dashboard's non-array responses. Its lists are modelled as typed sequences; only the admin panel's explicit coercion is modelled.
- AdminPanel.FetchAllData: the elements of an array body are assumed to be well-typed records. A body such as `[null]` passes `Array.isArray`. `t.status` then throws at src/components/AdminPanel.tsx:84, after the three list setters at lines 76-78 have run. So the lists change, the statistics keep their old values, and the handler takes its catch branch. The model has no such element-failure outcome.
- AdminPanel.FetchKeepsStatsInStep: holds only under the same assumption of well-typed elements. With a `null` technician element, the source leaves statistics that no longer describe the lists held.
- TechnicianDashboard.FetchData: the elements of the issue list are assumed to be well-typed records. A `null` issue makes `issue.assigned_technician` throw at src/components/TechnicianDashboard.tsx:49, after `setTechnicianStatus` at line 46. So the new technician is shown with the old issues. The model has no such partial update.
- TechnicianDashboard.InFlightDisablesOnlyThatIssue: describes one update at a time. The source keeps a single `updatingIssue` slot. A second press before the first request settles overwrites the slot, which re-enables the first issue's buttons while its request is in flight. When the first request settles, it clears the slot while the second is still in flight. `TechnicianDashboard.OverlappingUpdatesShareOneSlot` states this overlap.
- Issue ids are modelled as strings. The update changes every issue carrying the id. `TechnicianDashboard.ButtonAdvancesOnlyItsIssue` assumes distinct ids, as the backend assigns them.
- DashboardHeader.RoleLabelShape: `toUpperCase` is modelled for ASCII letters only, because full Unicode case mapping is outside this model.
- DashboardHeader.Render: a stored value with no role field makes `user.role.charAt(0)` throw during rendering. Such a value is a record without `role`, or a truthy non-record such as a number or an array. The model reads the missing role as `""` and renders an empty label. A record with role `""` renders an empty label in the source as well. Rendering failures are outside this model.
- StatusBadge.Classes: `cn` is modelled as an ordered list that drops an absent or empty caller class, because Tailwind's rule for merging conflicting classes is outside this model.
