/** The admin overview: the three list requests, the coercion of non-array
    bodies to empty lists, and the summary statistics. */
module AdminPanel {
  import opened Outcomes
  import opened Records

  /** A response body: a JSON array of records, or anything else. */
  datatype Body<T> = ArrayBody(items: seq<T>) | OtherBody

  /** `Array.isArray(body) ? body : []`. */
  function AsList<T>(b: Body<T>): (xs: seq<T>)
    ensures b.OtherBody? ==> xs == []
    ensures b.ArrayBody? ==> xs == b.items
  {
    match b
    case ArrayBody(items) => items
    case OtherBody => []
  }

  /** The `filter` for technicians whose status is "available". */
  function AvailableOnly(techs: seq<Technician>): (r: seq<Technician>)
    ensures |r| <= |techs|
    ensures forall i :: 0 <= i < |r| ==> r[i].status == Available
    ensures forall x :: x in r <==> x in techs && x.status == Available
  {
    if |techs| == 0 then []
    else
      var rest := AvailableOnly(techs[1..]);
      if techs[0].status == Available then [techs[0]] + rest else rest
  }

  /** The number of busy technicians, counted independently of the filter. */
  function CountBusy(techs: seq<Technician>): nat {
    if |techs| == 0 then 0
    else (if techs[0].status == Busy then 1 else 0) + CountBusy(techs[1..])
  }

  /** Every technician is either counted as available or as busy. */
  lemma {:induction false} AvailablePlusBusy(techs: seq<Technician>)
    ensures |AvailableOnly(techs)| + CountBusy(techs) == |techs|
  {
    if |techs| > 0 {
      AvailablePlusBusy(techs[1..]);
    }
  }

  /** All technicians count as available exactly when none is busy. */
  lemma AllAvailableIffNoneBusy(techs: seq<Technician>)
    ensures |AvailableOnly(techs)| == |techs| <==> forall i :: 0 <= i < |techs| ==> techs[i].status == Available
  {
    AvailablePlusBusy(techs);
    if |AvailableOnly(techs)| == |techs| {
      NoBusyMeansAllAvailable(techs);
    } else {
      SomeBusyWhenCountPositive(techs);
    }
  }

  lemma {:induction false} NoBusyMeansAllAvailable(techs: seq<Technician>)
    requires CountBusy(techs) == 0
    ensures forall i :: 0 <= i < |techs| ==> techs[i].status == Available
  {
    if |techs| > 0 {
      NoBusyMeansAllAvailable(techs[1..]);
      forall i | 0 < i < |techs| ensures techs[i].status == Available {
        assert techs[i] == techs[1..][i - 1];
      }
    }
  }

  lemma {:induction false} SomeBusyWhenCountPositive(techs: seq<Technician>)
    requires CountBusy(techs) > 0
    ensures exists i :: 0 <= i < |techs| && techs[i].status == Busy
  {
    if techs[0].status != Busy {
      SomeBusyWhenCountPositive(techs[1..]);
      var i :| 0 <= i < |techs[1..]| && techs[1..][i].status == Busy;
      assert techs[i + 1].status == Busy;
    }
  }

  datatype Stats = Stats(totalUsers: nat, totalTechnicians: nat, totalIssues: nat, availableTechnicians: nat)

  const ZeroStats: Stats := Stats(0, 0, 0, 0)

  /** The four cards: the list lengths and the number of available technicians,
      which together with the busy ones make up the technician total. */
  function ComputeStats(users: seq<UserRecord>, techs: seq<Technician>, issues: seq<Issue>): (st: Stats)
    ensures st.totalUsers == |users| && st.totalTechnicians == |techs| && st.totalIssues == |issues|
    ensures st.availableTechnicians + CountBusy(techs) == st.totalTechnicians
    ensures st.availableTechnicians == st.totalTechnicians <==> forall i :: 0 <= i < |techs| ==> techs[i].status == Available
  {
    AvailablePlusBusy(techs);
    AllAvailableIffNoneBusy(techs);
    Stats(|users|, |techs|, |issues|, |AvailableOnly(techs)|)
  }

  datatype State = State(
    users: seq<UserRecord>,
    technicians: seq<Technician>,
    issues: seq<Issue>,
    stats: Stats,
    loading: bool)

  const Initial: State := State([], [], [], ZeroStats, true)

  /** The statistics describe the lists the panel holds. */
  predicate StatsDescribeLists(s: State) {
    s.stats == ComputeStats(s.users, s.technicians, s.issues)
  }

  /** `fetchAllData`: the three requests succeed or fail together. On success
      each body is coerced to a list and the statistics are recomputed; on
      failure lists and statistics keep their prior values. Loading ends
      either way. */
  function FetchAllData(s: State, usersCall: Call<Body<UserRecord>>, techsCall: Call<Body<Technician>>,
                        issuesCall: Call<Body<Issue>>): (t: State)
    ensures !t.loading
    ensures (usersCall.Failed? || techsCall.Failed? || issuesCall.Failed?) ==> t == s.(loading := false)
    ensures usersCall.Ok? && techsCall.Ok? && issuesCall.Ok? ==>
      && t.users == AsList(usersCall.body)
      && t.technicians == AsList(techsCall.body)
      && t.issues == AsList(issuesCall.body)
      && t.stats.totalUsers == |t.users|
      && t.stats.totalTechnicians == |t.technicians|
      && t.stats.totalIssues == |t.issues|
      && t.stats == ComputeStats(t.users, t.technicians, t.issues)
      && t.stats.availableTechnicians <= t.stats.totalTechnicians
  {
    match (usersCall, techsCall, issuesCall)
    case (Ok(u), Ok(tc), Ok(i)) =>
      var users := AsList(u);
      var techs := AsList(tc);
      var issues := AsList(i);
      State(users, techs, issues, ComputeStats(users, techs, issues), false)
    case _ => s.(loading := false)
  }

  /** The panel starts with zero statistics over empty lists, and every fetch,
      successful or not, keeps the statistics in step with the lists; in
      particular the available count never exceeds the technician count. */
  lemma FetchKeepsStatsInStep(s: State, usersCall: Call<Body<UserRecord>>, techsCall: Call<Body<Technician>>,
                              issuesCall: Call<Body<Issue>>)
    requires StatsDescribeLists(s)
    ensures StatsDescribeLists(Initial) && Initial.stats == ZeroStats
    ensures var t := FetchAllData(s, usersCall, techsCall, issuesCall);
      StatsDescribeLists(t) && t.stats.availableTechnicians <= t.stats.totalTechnicians
  {
  }

  /** A non-array body yields an empty list and zero counts for that list. */
  lemma NonArrayCountsAsEmpty(s: State, usersCall: Call<Body<UserRecord>>, issuesCall: Call<Body<Issue>>)
    requires usersCall.Ok? && issuesCall.Ok?
    ensures var t := FetchAllData(s, usersCall, Ok(OtherBody), issuesCall);
      t.technicians == [] && t.stats.totalTechnicians == 0 && t.stats.availableTechnicians == 0
  {
  }
}
