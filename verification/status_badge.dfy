/** The status badge: the fixed table from each of the seven statuses to a
    label and a colour class, and the class list the badge renders. */
module StatusBadge {
  import opened Outcomes
  import Records

  datatype Status = Pending | Assigned | InProgress | Resolved | Available | Busy | Progress

  /** The keys of the configuration table. */
  function Key(s: Status): string {
    match s
    case Pending => "pending"
    case Assigned => "assigned"
    case InProgress => "in_progress"
    case Resolved => "resolved"
    case Available => "available"
    case Busy => "busy"
    case Progress => "progress"
  }

  /** Looks a key up in the table; `None` for a key the table lacks. */
  function FromKey(k: string): (s: Option<Status>)
    ensures s.Some? ==> Key(s.value) == k
  {
    if k == "pending" then Some(Pending)
    else if k == "assigned" then Some(Assigned)
    else if k == "in_progress" then Some(InProgress)
    else if k == "resolved" then Some(Resolved)
    else if k == "available" then Some(Available)
    else if k == "busy" then Some(Busy)
    else if k == "progress" then Some(Progress)
    else None
  }

  /** Every status has an entry: the lookup never misses, and keys are distinct. */
  lemma TableIsTotal(s: Status)
    ensures FromKey(Key(s)) == Some(s)
  {
  }

  datatype Config = Config(text: string, colorClass: string)

  /** The table row of a status: its colour class is the theme colour of its
      family with white text, and only the two progress statuses read
      "In Progress". */
  function ConfigOf(s: Status): (c: Config)
    ensures c.text == "In Progress" <==> s == InProgress || s == Progress
  {
    match s
    case Pending => Config("Pending", "bg-status-pending text-white")
    case Assigned => Config("Assigned", "bg-status-assigned text-white")
    case InProgress => Config("In Progress", "bg-status-progress text-white")
    case Resolved => Config("Resolved", "bg-status-resolved text-white")
    case Available => Config("Available", "bg-status-resolved text-white")
    case Busy => Config("Busy", "bg-status-progress text-white")
    case Progress => Config("In Progress", "bg-status-progress text-white")
  }

  /** The four colour families of the theme. */
  datatype Tone = PendingTone | AssignedTone | ProgressTone | ResolvedTone

  /** Which family each status is drawn in: the reference for the colour column. */
  function ToneOf(s: Status): Tone {
    match s
    case Pending => PendingTone
    case Assigned => AssignedTone
    case InProgress | Busy | Progress => ProgressTone
    case Resolved | Available => ResolvedTone
  }

  /** The theme's colour name for a family. */
  function ToneName(t: Tone): string {
    match t
    case PendingTone => "pending"
    case AssignedTone => "assigned"
    case ProgressTone => "progress"
    case ResolvedTone => "resolved"
  }

  /** The theme colour class of a family: its colour as background, white text. */
  function ToneClass(t: Tone): string {
    "bg-status-" + ToneName(t) + " text-white"
  }

  /** Each status's colour class is the theme colour of its family. */
  lemma {:induction false} ColorClassIsToneClass(s: Status)
    ensures ConfigOf(s).colorClass == ToneClass(ToneOf(s))
  {
    match s
    case Pending => assert ToneClass(PendingTone) == "bg-status-pending text-white";
    case Assigned => assert ToneClass(AssignedTone) == "bg-status-assigned text-white";
    case InProgress | Busy | Progress => assert ToneClass(ProgressTone) == "bg-status-progress text-white";
    case Resolved | Available => assert ToneClass(ResolvedTone) == "bg-status-resolved text-white";
  }

  /** Two statuses share a colour class exactly when they share a family:
      resolved and available share one, in-progress, busy and progress another. */
  lemma ColorClassesFollowTones(a: Status, b: Status)
    ensures ConfigOf(a).colorClass == ConfigOf(b).colorClass <==> ToneOf(a) == ToneOf(b)
  {
  }

  /** Labels are distinct except that "in_progress" and "progress" both read
      "In Progress". */
  lemma LabelsDistinctButProgress(a: Status, b: Status)
    ensures ConfigOf(a).text == ConfigOf(b).text <==>
      a == b || (a in {InProgress, Progress} && b in {InProgress, Progress})
  {
  }

  /** The base classes every badge carries. */
  const BaseClasses: string := "inline-flex items-center px-2.5 py-0.5 rounded-full text-xs font-medium"

  /** The class list passed to `cn`: the base classes, the status's colour
      class, then the caller's class when it is present and non-empty. */
  function Classes(s: Status, extra: Option<string>): (cs: seq<string>)
    ensures |cs| >= 2 && cs[0] == BaseClasses && cs[1] == ConfigOf(s).colorClass
    ensures |cs| == 3 <==> extra.Some? && extra.value != ""
    ensures |cs| == 3 ==> cs[2] == extra.value
    ensures |cs| <= 3
  {
    match extra
    case Some(c) => if c != "" then [BaseClasses, ConfigOf(s).colorClass, c] else [BaseClasses, ConfigOf(s).colorClass]
    case None => [BaseClasses, ConfigOf(s).colorClass]
  }

  /** An issue's own status, shown as is. */
  function OfIssue(st: Records.IssueStatus): (s: Status)
    ensures Key(s) == IssueKey(st) && FromKey(IssueKey(st)) == Some(s)
    ensures ToneOf(s) != ResolvedTone <==> !st.Resolved?
  {
    match st
    case Pending => Pending
    case Assigned => Assigned
    case InProgress => InProgress
    case Resolved => Resolved
  }

  /** The wire value of an issue status. */
  function IssueKey(st: Records.IssueStatus): string {
    match st
    case Pending => "pending"
    case Assigned => "assigned"
    case InProgress => "in_progress"
    case Resolved => "resolved"
  }

  /** A technician's badge borrows the issue statuses: available shows as
      "resolved", anything else as "progress". */
  function OfTechnician(t: Records.TechnicianStatus): (s: Status)
    ensures s == Resolved <==> t.Available?
    ensures s == Progress <==> t.Busy?
  {
    match t
    case Available => Resolved
    case Busy => Progress
  }

  /** The technician badge is green exactly for an available technician and
      reads "In Progress" for a busy one. */
  lemma TechnicianBadgeLooks(t: Records.TechnicianStatus)
    ensures ToneOf(OfTechnician(t)) == ResolvedTone <==> t.Available?
    ensures t.Busy? ==> ConfigOf(OfTechnician(t)).text == "In Progress"
    ensures t.Available? ==> ConfigOf(OfTechnician(t)).text == "Resolved"
  {
  }
}
