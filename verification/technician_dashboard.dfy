/** The technician dashboard: the issues assigned to the current technician,
    the status update and its in-flight marker, and which action each issue
    offers. The two list requests and the update request are modelled by their
    outcomes. */
module TechnicianDashboard {
  import opened Outcomes
  import opened Records

  datatype State = State(
    issues: seq<Issue>,
    technician: Option<Technician>,
    loading: bool,
    updating: Option<string>)

  const Initial: State := State([], None, true, None)

  /** The `filter` keeping the issues whose assigned technician is `name`. */
  function AssignedTo(issues: seq<Issue>, name: string): (r: seq<Issue>)
    ensures |r| <= |issues|
    ensures forall i :: 0 <= i < |r| ==> r[i].assignedTechnician == Some(name)
    ensures forall x :: x in r ==> x in issues
  {
    if |issues| == 0 then []
    else
      var rest := AssignedTo(issues[1..], name);
      if issues[0].assignedTechnician == Some(name) then [issues[0]] + rest else rest
  }

  /** Nothing assigned to `name` is dropped. */
  lemma {:induction false} AssignedToKeepsAll(issues: seq<Issue>, name: string, x: Issue)
    ensures x in AssignedTo(issues, name) <==> x in issues && x.assignedTechnician == Some(name)
  {
    if |issues| > 0 {
      AssignedToKeepsAll(issues[1..], name, x);
      assert issues == [issues[0]] + issues[1..];
    }
  }

  /** The filter works piecewise, so it keeps the original order. */
  lemma {:induction false} AssignedToConcat(a: seq<Issue>, b: seq<Issue>, name: string)
    ensures AssignedTo(a + b, name) == AssignedTo(a, name) + AssignedTo(b, name)
  {
    if |a| == 0 {
      assert a + b == b;
    } else {
      assert (a + b)[1..] == a[1..] + b;
      AssignedToConcat(a[1..], b, name);
    }
  }

  /** `fetchData`: the first technician in the list is the current one; its
      issues replace the list. A failed request, or an empty technician list,
      changes nothing but the loading flag. */
  function FetchData(s: State, issuesCall: Call<seq<Issue>>, techniciansCall: Call<seq<Technician>>): (t: State)
    ensures !t.loading && t.updating == s.updating
    ensures (issuesCall.Failed? || techniciansCall.Failed? || |techniciansCall.body| == 0) ==>
      t.issues == s.issues && t.technician == s.technician
    ensures issuesCall.Ok? && techniciansCall.Ok? && |techniciansCall.body| > 0 ==>
      var current := techniciansCall.body[0];
      && t.technician == Some(current)
      && t.issues == AssignedTo(issuesCall.body, current.name)
      && (forall x :: x in t.issues <==> x in issuesCall.body && x.assignedTechnician == Some(current.name))
      && |t.issues| <= |issuesCall.body|
  {
    match (issuesCall, techniciansCall)
    case (Ok(issues), Ok(technicians)) =>
      if |technicians| > 0 then
        var current := technicians[0];
        forall x ensures x in AssignedTo(issues, current.name) <==> x in issues && x.assignedTechnician == Some(current.name) {
          AssignedToKeepsAll(issues, current.name, x);
        }
        State(AssignedTo(issues, current.name), Some(current), false, s.updating)
      else s.(loading := false)
    case _ => s.(loading := false)
  }

  /** The `map` that gives every issue with id `id` the status `status`. */
  function SetStatus(issues: seq<Issue>, id: string, status: IssueStatus): (r: seq<Issue>)
    ensures |r| == |issues|
    ensures forall i :: 0 <= i < |r| && issues[i].id == id ==> r[i] == issues[i].(status := status)
    ensures forall i :: 0 <= i < |r| && issues[i].id != id ==> r[i] == issues[i]
  {
    if |issues| == 0 then []
    else
      var head := if issues[0].id == id then issues[0].(status := status) else issues[0];
      [head] + SetStatus(issues[1..], id, status)
  }

  /** Setting the same status again changes nothing more. */
  lemma SetStatusIdempotent(issues: seq<Issue>, id: string, status: IssueStatus)
    ensures SetStatus(SetStatus(issues, id, status), id, status) == SetStatus(issues, id, status)
  {
  }

  /** Updates of different issues commute. */
  lemma SetStatusCommutes(issues: seq<Issue>, a: string, sa: IssueStatus, b: string, sb: IssueStatus)
    requires a != b
    ensures SetStatus(SetStatus(issues, a, sa), b, sb) == SetStatus(SetStatus(issues, b, sb), a, sa)
  {
  }

  /** Pressing a button: the issue id is marked as in flight. */
  function BeginUpdate(s: State, id: string): (t: State)
    ensures t.updating == Some(id) && t.issues == s.issues
    ensures t.technician == s.technician && t.loading == s.loading
  {
    s.(updating := Some(id))
  }

  /** The request settles: on success the status is set on the issues with that
      id; either way the in-flight marker is cleared. */
  function FinishUpdate(s: State, id: string, status: IssueStatus, call: Call<()>): (t: State)
    ensures t.updating.None?
    ensures call.Failed? ==> t.issues == s.issues
    ensures call.Ok? ==> t.issues == SetStatus(s.issues, id, status)
    ensures t.technician == s.technician && t.loading == s.loading
  {
    var issues := if call.Ok? then SetStatus(s.issues, id, status) else s.issues;
    s.(issues := issues, updating := None)
  }

  /** `updateIssueStatus` from start to end. */
  function UpdateIssueStatus(s: State, id: string, status: IssueStatus, call: Call<()>): (t: State)
    ensures t.updating.None? && |t.issues| == |s.issues|
    ensures t.technician == s.technician && t.loading == s.loading
    ensures call.Failed? ==> t.issues == s.issues
    ensures call.Ok? ==> forall i :: 0 <= i < |t.issues| ==>
      t.issues[i] == if s.issues[i].id == id then s.issues[i].(status := status) else s.issues[i]
  {
    FinishUpdate(BeginUpdate(s, id), id, status, call)
  }

  /** The two buttons an issue card can show. */
  datatype Action = StartWork | MarkResolved

  /** The button an issue offers, if any. */
  function ActionFor(status: IssueStatus): (a: Option<Action>)
    ensures a.Some? <==> status == Assigned || status == InProgress
    ensures a.Some? ==> Rank(Target(a.value)) == Rank(status) + 1
  {
    match status
    case Assigned => Some(StartWork)
    case InProgress => Some(MarkResolved)
    case _ => None
  }

  /** The status a button requests. */
  function Target(a: Action): IssueStatus {
    match a
    case StartWork => InProgress
    case MarkResolved => Resolved
  }

  /** Position of a status along the workflow. */
  function Rank(status: IssueStatus): nat {
    match status
    case Pending => 0
    case Assigned => 1
    case InProgress => 2
    case Resolved => 3
  }

  /** Following the buttons always ends at resolved: a pending or resolved
      issue offers nothing, and the status a button requests either is
      resolved or offers the next button in turn. */
  lemma ButtonsEndAtResolved(status: IssueStatus)
    ensures ActionFor(Pending).None? && ActionFor(Resolved).None?
    ensures ActionFor(status).Some? ==>
      var next := Target(ActionFor(status).value);
      next == Resolved || ActionFor(next).Some?
  {
  }

  /** An issue's buttons are disabled while its own update is in flight. */
  function ButtonsDisabled(s: State, issue: Issue): bool {
    s.updating == Some(issue.id)
  }

  /** During an update exactly the issues with that id have disabled buttons;
      once it settles none do. */
  lemma InFlightDisablesOnlyThatIssue(s: State, id: string, status: IssueStatus, call: Call<()>, issue: Issue)
    ensures ButtonsDisabled(BeginUpdate(s, id), issue) <==> issue.id == id
    ensures !ButtonsDisabled(FinishUpdate(BeginUpdate(s, id), id, status, call), issue)
  {
  }

  /** The dashboard has one in-flight slot. A second press before the first
      request settles takes the slot over, so the first issue's buttons are
      enabled again while its request is still in flight; when the first
      request settles it empties the slot although the second is in flight. */
  lemma OverlappingUpdatesShareOneSlot(s: State, a: string, b: string, status: IssueStatus, call: Call<()>,
                                       first: Issue, any: Issue)
    requires a != b && first.id == a
    ensures var both := BeginUpdate(BeginUpdate(s, a), b);
      && !ButtonsDisabled(both, first)
      && !ButtonsDisabled(FinishUpdate(both, a, status, call), any)
  {
  }

  /** Issue ids are distinct. */
  predicate UniqueIds(issues: seq<Issue>) {
    forall i, j :: 0 <= i < j < |issues| ==> issues[i].id != issues[j].id
  }

  /** Pressing the offered button of issue `k`, when ids are distinct and the
      request succeeds, moves that issue one step forward and leaves every other
      issue as it was. */
  lemma ButtonAdvancesOnlyItsIssue(s: State, k: int, call: Call<()>)
    requires 0 <= k < |s.issues| && UniqueIds(s.issues)
    requires ActionFor(s.issues[k].status).Some? && call.Ok?
    ensures var t := UpdateIssueStatus(s, s.issues[k].id, Target(ActionFor(s.issues[k].status).value), call);
      && Rank(t.issues[k].status) == Rank(s.issues[k].status) + 1
      && t.issues[k] == s.issues[k].(status := t.issues[k].status)
      && forall i :: 0 <= i < |s.issues| && i != k ==> t.issues[i] == s.issues[i]
  {
  }
}
