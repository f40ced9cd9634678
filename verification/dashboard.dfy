/** The organization dashboard: the chart aggregations shared by
    services/dashboardMetricsService.js `buildDashboardStats` and
    routes/dashboardDetailsRoute.js, and the route's own deadlines, member
    cards, invite sweep and summary counts. */
module Dashboard {
  import opened Common
  import Activity
  import Invites
  import Teams
  import Workspace
  import OrganizationModel
  import Gateway

  // ---------------------------------------------------------------------
  // Histograms: `h[k] = (h[k] || 0) + 1`
  // ---------------------------------------------------------------------

  /** One key of a counting object, in insertion order. */
  datatype Entry = Entry(key: string, count: nat)

  function Total(h: seq<Entry>): nat {
    if h == [] then 0 else h[0].count + Total(h[1..])
  }

  /** `h[k] || 0`. */
  function CountOf(h: seq<Entry>, k: string): nat {
    if h == [] then 0 else if h[0].key == k then h[0].count else CountOf(h[1..], k)
  }

  /** One increment: the key's count goes up by one, a new key is appended
      with count one. */
  function Bump(h: seq<Entry>, k: string): (r: seq<Entry>)
    ensures Total(r) == Total(h) + 1
    ensures CountOf(r, k) == CountOf(h, k) + 1
    ensures forall j :: j != k ==> CountOf(r, j) == CountOf(h, j)
  {
    if h == [] then [Entry(k, 1)]
    else if h[0].key == k then [h[0].(count := h[0].count + 1)] + h[1..]
    else [h[0]] + Bump(h[1..], k)
  }

  /** The counting object built from `keys` in order.  Its counts are the
      multiplicities of the keys, so they add up to the number of keys. */
  function Tally(keys: seq<string>): (h: seq<Entry>)
    ensures Total(h) == |keys|
    ensures forall k :: CountOf(h, k) == multiset(keys)[k]
  {
    if keys == [] then []
    else
      var n := |keys| - 1;
      assert keys == keys[..n] + [keys[n]];
      Bump(Tally(keys[..n]), keys[n])
  }

  // ---------------------------------------------------------------------
  // Collections of one organization
  // ---------------------------------------------------------------------

  /** `getMonth()`'s range. */
  type MonthIndex = m: int | 0 <= m < 12

  /** The local calendar year and month of an instant. */
  datatype CalendarDate = CalendarDate(year: int, month: MonthIndex)

  /** A project document; `docId` is its database `_id`, `projectId` its
      `ProjectID`. */
  datatype ProjectRow = ProjectRow(
    docId: string,
    projectId: string,
    organizationID: string,
    name: string,
    description: string,
    owner: string,
    isActive: bool,
    statusId: int,
    finishDate: Option<int>,
    createdDate: int)

  datatype TaskRow = TaskRow(projectId: string, typ: string, status: int, createdDate: int)

  /** A team document; `docId` is its database `_id`, `teamId` its `TeamID`. */
  datatype TeamRow = TeamRow(docId: string, teamId: string, teamName: string, ownerId: string, organizationID: string)

  /** A user document; empty strings stand for the falsy values the route
      replaces by defaults. */
  datatype UserRow = UserRow(
    id: string,
    organizationID: string,
    firstName: string,
    lastName: string,
    email: string,
    isActive: bool,
    role: string,
    status: string,
    username: string)

  /** A `ProjectStatus` common type. */
  datatype StatusType = StatusType(code: int, value: string)

  datatype Db = Db(
    projects: seq<ProjectRow>,
    tasks: seq<TaskRow>,
    teams: seq<TeamRow>,
    users: seq<UserRow>,
    statuses: seq<StatusType>,
    log: seq<Activity.Record>,
    invites: seq<Invites.Invite>,
    memberships: seq<Workspace.Membership>,
    organizations: seq<OrganizationModel.Organization>)

  /** The documents the queries return for one organization. */
  datatype Scope = Scope(
    projects: seq<ProjectRow>,
    tasks: seq<TaskRow>,
    teams: seq<TeamRow>,
    users: seq<UserRow>)

  function ProjectIds(ps: seq<ProjectRow>): set<string> {
    set p | p in ps :: p.projectId
  }

  function UserIds(us: seq<UserRow>): set<string> {
    set u | u in us :: u.id
  }

  function ScopeOf(db: Db, org: string): (s: Scope)
    ensures forall p :: p in s.projects <==> p in db.projects && p.organizationID == org
    ensures forall t :: t in s.teams <==> t in db.teams && t.organizationID == org
    ensures forall u :: u in s.users <==> u in db.users && u.organizationID == org
    ensures forall t :: t in s.tasks <==> t in db.tasks && t.projectId in ProjectIds(s.projects)
  {
    var projects := Filter(db.projects, (p: ProjectRow) => p.organizationID == org);
    Scope(projects, Filter(db.tasks, (t: TaskRow) => t.projectId in ProjectIds(projects)),
          Filter(db.teams, (t: TeamRow) => t.organizationID == org),
          Filter(db.users, (u: UserRow) => u.organizationID == org))
  }

  // ---------------------------------------------------------------------
  // Charts
  // ---------------------------------------------------------------------

  const UnknownStatus: string := "Unknown Status"

  /** `projStatus.find(item => item.Code === code)?.Value || 'Unknown Status'`. */
  function StatusLabel(statuses: seq<StatusType>, code: int): (l: string)
    ensures l != ""
    ensures (forall j :: 0 <= j < |statuses| ==> statuses[j].code != code) ==> l == UnknownStatus
    ensures l != UnknownStatus ==> exists j :: 0 <= j < |statuses| && statuses[j].code == code && statuses[j].value == l
  {
    match FirstWhere(statuses, (s: StatusType) => s.code == code)
    case None => UnknownStatus
    case Some(j) => if statuses[j].value == "" then UnknownStatus else statuses[j].value
  }

  function StatusLabels(statuses: seq<StatusType>, ps: seq<ProjectRow>): (r: seq<string>)
    ensures |r| == |ps|
    ensures forall i :: 0 <= i < |ps| ==> r[i] == StatusLabel(statuses, ps[i].statusId)
  {
    seq(|ps|, i requires 0 <= i < |ps| => StatusLabel(statuses, ps[i].statusId))
  }

  function Types(ts: seq<TaskRow>): (r: seq<string>)
    ensures |r| == |ts|
    ensures forall i :: 0 <= i < |ts| ==> r[i] == ts[i].typ
  {
    seq(|ts|, i requires 0 <= i < |ts| => ts[i].typ)
  }

  function ActivityTypes(rs: seq<Activity.Record>): (r: seq<string>)
    ensures |r| == |rs|
    ensures forall i :: 0 <= i < |rs| ==> r[i] == rs[i].typ
  {
    seq(|rs|, i requires 0 <= i < |rs| => rs[i].typ)
  }

  /** A task counts as completed from status 5 on. */
  predicate Completed(t: TaskRow) {
    t.status >= 5
  }

  function SumSeq(s: seq<nat>): nat {
    if s == [] then 0 else s[0] + SumSeq(s[1..])
  }

  lemma {:induction false} SumBump(s: seq<nat>, m: nat)
    requires m < |s|
    ensures SumSeq(s[m := s[m] + 1]) == SumSeq(s) + 1
  {
    if m > 0 {
      SumBump(s[1..], m - 1);
      assert s[m := s[m] + 1][1..] == s[1..][m - 1 := s[m] + 1];
    }
  }

  lemma {:induction false} SumZeros(n: nat)
    ensures SumSeq(seq(n, _ => 0)) == 0
  {
    if n > 0 {
      SumZeros(n - 1);
      assert seq(n, _ => 0)[1..] == seq(n - 1, _ => 0);
    }
  }

  predicate InMonth(cal: int -> CalendarDate, d: int, year: int, m: int) {
    cal(d).year == year && cal(d).month == m
  }

  /** `Array(12).fill(0)` with one increment per date of `year`, at its
      month.  Each month holds the number of dates in it, and the months
      together hold the dates of the year. */
  function MonthCounts(dates: seq<int>, cal: int -> CalendarDate, year: int): (c: seq<nat>)
    ensures |c| == 12
    ensures SumSeq(c) == CountWhere(dates, (d: int) => cal(d).year == year)
  {
    if dates == [] then
      var z: seq<nat> := seq(12, _ => 0);
      SumZeros(12);
      z
    else
      var c := MonthCounts(dates[1..], cal, year);
      var d := cal(dates[0]);
      if d.year == year then
        SumBump(c, d.month);
        c[d.month := c[d.month] + 1]
      else c
  }

  /** Each month holds the number of dates of the year in it. */
  lemma {:induction false} MonthCountsPerMonth(dates: seq<int>, cal: int -> CalendarDate, year: int, m: nat)
    requires m < 12
    ensures MonthCounts(dates, cal, year)[m] == CountWhere(dates, (d: int) => InMonth(cal, d, year, m))
  {
    if dates != [] {
      var inMonth := (d: int) => InMonth(cal, d, year, m);
      MonthCountsPerMonth(dates[1..], cal, year, m);
      assert CountWhere(dates, inMonth) == (if inMonth(dates[0]) then 1 else 0) + CountWhere(dates[1..], inMonth);
    }
  }

  /** Every month at once. */
  lemma MonthCountsEveryMonth(dates: seq<int>, cal: int -> CalendarDate, year: int)
    ensures forall m :: 0 <= m < 12 ==>
                 MonthCounts(dates, cal, year)[m] == CountWhere(dates, (d: int) => InMonth(cal, d, year, m))
  {
    forall m | 0 <= m < 12
      ensures MonthCounts(dates, cal, year)[m] == CountWhere(dates, (d: int) => InMonth(cal, d, year, m))
    {
      MonthCountsPerMonth(dates, cal, year, m);
    }
  }

  function CreatedDates(ps: seq<ProjectRow>): (r: seq<int>)
    ensures |r| == |ps| && forall i :: 0 <= i < |ps| ==> r[i] == ps[i].createdDate
  {
    seq(|ps|, i requires 0 <= i < |ps| => ps[i].createdDate)
  }

  function TaskDates(ts: seq<TaskRow>): (r: seq<int>)
    ensures |r| == |ts| && forall i :: 0 <= i < |ts| ==> r[i] == ts[i].createdDate
  {
    seq(|ts|, i requires 0 <= i < |ts| => ts[i].createdDate)
  }

  datatype Monthly = Monthly(projectsCreated: seq<nat>, tasksCompleted: seq<nat>)

  function Timestamp(a: Activity.Record): int {
    a.timestamp
  }

  /** An activity of one of the users `ids` at or after `since`. */
  predicate RecentOf(a: Activity.Record, ids: set<string>, since: int) {
    a.user.Some? && a.user.value in ids && a.timestamp >= since
  }

  const RecentLimit: nat := 50

  function Candidates(log: seq<Activity.Record>, ids: set<string>, now: int): (c: seq<Activity.Record>)
    ensures forall a :: a in c <==> a in log && RecentOf(a, ids, now - 30 * DayMs)
  {
    Filter(log, (a: Activity.Record) => RecentOf(a, ids, now - 30 * DayMs))
  }

  function Min(a: nat, b: nat): nat {
    if a < b then a else b
  }

  /** The last 30 days of the users' activity, newest first, at most 50,
      taken from the candidates. */
  function RecentActivity(log: seq<Activity.Record>, ids: set<string>, now: int): (r: seq<Activity.Record>)
    ensures |r| == Min(|Candidates(log, ids, now)|, RecentLimit)
    ensures multiset(r) <= multiset(Candidates(log, ids, now))
    ensures Descending(r, Timestamp)
  {
    var sorted := SortDesc(Candidates(log, ids, now), Timestamp);
    var n := Min(|sorted|, RecentLimit);
    SortedPrefix(sorted, Timestamp, n);
    sorted[..n]
  }

  /** A prefix of a sequence ordered by key is ordered and drawn from it. */
  lemma SortedPrefix<T>(sorted: seq<T>, key: T -> int, n: nat)
    requires Descending(sorted, key) && n <= |sorted|
    ensures Descending(sorted[..n], key)
    ensures multiset(sorted[..n]) <= multiset(sorted)
  {
    assert sorted == sorted[..n] + sorted[n..];
  }

  /** A prefix of a sequence ordered by key is no lower than what is left. */
  lemma PrefixNotLower<T>(sorted: seq<T>, key: T -> int, n: nat)
    requires Descending(sorted, key) && n <= |sorted|
    ensures forall x, y :: x in sorted[..n] && y in multiset(sorted) - multiset(sorted[..n]) ==> key(x) >= key(y)
  {
    var r := sorted[..n];
    var rest := sorted[n..];
    assert sorted == r + rest;
    assert multiset(sorted) == multiset(r) + multiset(rest);
    assert multiset(sorted) - multiset(r) == multiset(rest);
    forall x, y | x in r && y in multiset(sorted) - multiset(r)
      ensures key(x) >= key(y)
    {
      assert y in multiset(rest);
      CrossPairOrdered(sorted, key, n, x, y);
    }
  }

  /** An element of the prefix is no lower than one of the rest. */
  lemma CrossPairOrdered<T>(sorted: seq<T>, key: T -> int, n: nat, x: T, y: T)
    requires Descending(sorted, key) && n <= |sorted|
    requires x in sorted[..n] && y in sorted[n..]
    ensures key(x) >= key(y)
  {
    var i :| 0 <= i < n && sorted[..n][i] == x;
    var j :| 0 <= j < |sorted| - n && sorted[n..][j] == y;
    assert sorted[i] == x && sorted[n + j] == y;
  }

  /** No activity left out of the recent list is newer than one kept. */
  lemma RecentActivityKeepsNewest(log: seq<Activity.Record>, ids: set<string>, now: int)
    ensures var r := RecentActivity(log, ids, now);
      forall x, y :: x in r && y in multiset(Candidates(log, ids, now)) - multiset(r) ==> x.timestamp >= y.timestamp
  {
    var c := Candidates(log, ids, now);
    var sorted := SortDesc(c, Timestamp);
    PrefixNotLower(sorted, Timestamp, Min(|sorted|, RecentLimit));
  }

  /** Every activity in the recent list is a recent activity of the users. */
  lemma RecentActivityIsRecent(log: seq<Activity.Record>, ids: set<string>, now: int)
    ensures forall a :: a in RecentActivity(log, ids, now) ==> RecentOf(a, ids, now - 30 * DayMs) && a in log
  {
    var c := Candidates(log, ids, now);
    var r := RecentActivity(log, ids, now);
    forall a | a in r
      ensures RecentOf(a, ids, now - 30 * DayMs) && a in log
    {
      assert a in multiset(r);
      assert a in c;
    }
  }

  /** A team's projects as the route selects them: owned by the team's
      owner, or of the team's organization. */
  predicate OfTeam(p: ProjectRow, t: TeamRow) {
    p.owner == t.ownerId || p.organizationID == t.organizationID
  }

  datatype TeamStats = TeamStats(teamId: string, teamName: string, memberCount: nat, activeProjects: nat,
                                 totalProjects: nat)

  function Performance(t: TeamRow, ps: seq<ProjectRow>, memberCount: nat): (r: TeamStats)
    ensures r.activeProjects <= r.totalProjects
  {
    CountSubset(ps, (p: ProjectRow) => OfTeam(p, t) && p.isActive, (p: ProjectRow) => OfTeam(p, t));
    TeamStats(t.teamId, t.teamName, memberCount,
              CountWhere(ps, (p: ProjectRow) => OfTeam(p, t) && p.isActive),
              CountWhere(ps, (p: ProjectRow) => OfTeam(p, t)))
  }

  lemma {:induction false} CountSubset<T>(s: seq<T>, p: T -> bool, q: T -> bool)
    requires forall x :: p(x) ==> q(x)
    ensures CountWhere(s, p) <= CountWhere(s, q)
  {
    if s != [] {
      CountSubset(s[1..], p, q);
    }
  }

  /** The team cards, each with the member count `count` gives its team. */
  function TeamPerformance(teams: seq<TeamRow>, ps: seq<ProjectRow>, count: string -> nat): (r: seq<TeamStats>)
    ensures |r| == |teams|
    ensures forall i :: 0 <= i < |teams| ==> r[i] == Performance(teams[i], ps, count(teams[i].teamId))
  {
    seq(|teams|, i requires 0 <= i < |teams| => Performance(teams[i], ps, count(teams[i].teamId)))
  }

  /** `team.members?.length || 0`: the Team schema has no `members` path,
      so every team reads as having none. */
  const NoMembers: string -> nat := (teamId: string) => 0

  function MembersOf(ms: seq<Workspace.Membership>, teamId: string): nat {
    CountWhere(ms, (m: Workspace.Membership) => m.teamId == teamId)
  }

  /** The member count the cards are meant to show: the team's memberships. */
  function MembershipCount(ms: seq<Workspace.Membership>): (count: string -> nat)
    ensures forall teamId :: count(teamId) == MembersOf(ms, teamId)
  {
    (teamId: string) => MembersOf(ms, teamId)
  }

  /** A team with a member is still shown with none; the intended count
      shows it. */
  lemma MemberCountAlwaysZero(t: TeamRow, ps: seq<ProjectRow>, m: Workspace.Membership)
    requires m.teamId == t.teamId
    ensures TeamPerformance([t], ps, NoMembers)[0].memberCount == 0
    ensures TeamPerformance([t], ps, MembershipCount([m]))[0].memberCount == 1
  {
  }

  /** Within one organization the second test always holds, so every team
      is credited with every project of the organization. */
  lemma EveryTeamCountsEveryProject(s: Scope, org: string, i: nat)
    requires forall p :: p in s.projects ==> p.organizationID == org
    requires i < |s.teams| && s.teams[i].organizationID == org
    ensures TeamPerformance(s.teams, s.projects, NoMembers)[i].totalProjects == |s.projects|
  {
    var t := s.teams[i];
    CountAll(s.projects, (p: ProjectRow) => OfTeam(p, t));
  }

  lemma {:induction false} CountAll<T>(s: seq<T>, p: T -> bool)
    requires forall j :: 0 <= j < |s| ==> p(s[j])
    ensures CountWhere(s, p) == |s|
  {
    if s != [] {
      CountAll(s[1..], p);
    }
  }

  datatype Charts = Charts(
    projectStatusDistribution: seq<Entry>,
    taskTypeDistribution: seq<Entry>,
    monthlyActivity: Monthly,
    teamPerformance: seq<TeamStats>,
    activityByType: seq<Entry>,
    totalTasks: nat,
    completedTasks: nat,
    activeTasks: nat)

  /** The chart data of one organization's documents at `now`, with team
      member counts from `count`. */
  function BuildCharts(s: Scope, statuses: seq<StatusType>, log: seq<Activity.Record>, count: string -> nat,
                       now: int, cal: int -> CalendarDate): (c: Charts)
    ensures Total(c.projectStatusDistribution) == |s.projects|
    ensures forall k :: CountOf(c.projectStatusDistribution, k) == multiset(StatusLabels(statuses, s.projects))[k]
    ensures Total(c.taskTypeDistribution) == |s.tasks| == c.totalTasks
    ensures forall k :: CountOf(c.taskTypeDistribution, k) == multiset(Types(s.tasks))[k]
    ensures c.completedTasks + c.activeTasks == c.totalTasks
    ensures c.completedTasks == CountWhere(s.tasks, Completed)
    ensures |c.monthlyActivity.projectsCreated| == 12 && |c.monthlyActivity.tasksCompleted| == 12
    ensures forall m :: 0 <= m < 12 ==>
                 c.monthlyActivity.projectsCreated[m] ==
                 CountWhere(CreatedDates(s.projects), (d: int) => InMonth(cal, d, cal(now).year, m))
    ensures forall m :: 0 <= m < 12 ==>
                 c.monthlyActivity.tasksCompleted[m] ==
                 CountWhere(TaskDates(Filter(s.tasks, Completed)), (d: int) => InMonth(cal, d, cal(now).year, m))
    ensures SumSeq(c.monthlyActivity.projectsCreated) ==
      CountWhere(CreatedDates(s.projects), (d: int) => cal(d).year == cal(now).year)
    ensures SumSeq(c.monthlyActivity.tasksCompleted) ==
      CountWhere(TaskDates(Filter(s.tasks, Completed)), (d: int) => cal(d).year == cal(now).year)
    ensures Total(c.activityByType) <= RecentLimit
    ensures forall k :: CountOf(c.activityByType, k) ==
                 multiset(ActivityTypes(RecentActivity(log, UserIds(s.users), now)))[k]
    ensures c.teamPerformance == TeamPerformance(s.teams, s.projects, count)
  {
    var year := cal(now).year;
    var completed := Filter(s.tasks, Completed);
    var active := Filter(s.tasks, (t: TaskRow) => t.status < 5);
    CountSplit(s.tasks, Completed, (t: TaskRow) => t.status < 5);
    var recent := RecentActivity(log, UserIds(s.users), now);
    MonthCountsEveryMonth(CreatedDates(s.projects), cal, year);
    MonthCountsEveryMonth(TaskDates(completed), cal, year);
    Charts(Tally(StatusLabels(statuses, s.projects)), Tally(Types(s.tasks)),
           Monthly(MonthCounts(CreatedDates(s.projects), cal, year), MonthCounts(TaskDates(completed), cal, year)),
           TeamPerformance(s.teams, s.projects, count), Tally(ActivityTypes(recent)), |s.tasks|, |completed|, |active|)
  }

  /** A project whose status code no common type carries is counted under
      "Unknown Status". */
  lemma UnknownCodesCounted(s: Scope, statuses: seq<StatusType>, log: seq<Activity.Record>, count: string -> nat,
                            now: int, cal: int -> CalendarDate, i: nat)
    requires i < |s.projects|
    requires forall j :: 0 <= j < |statuses| ==> statuses[j].code != s.projects[i].statusId
    ensures CountOf(BuildCharts(s, statuses, log, count, now, cal).projectStatusDistribution, UnknownStatus) >= 1
  {
    var labels := StatusLabels(statuses, s.projects);
    assert labels[i] == UnknownStatus;
    assert UnknownStatus in multiset(labels);
  }

  // ---------------------------------------------------------------------
  // buildDashboardStats
  // ---------------------------------------------------------------------

  datatype Metrics = Metrics(totalProjects: nat, totalTeams: nat, totalUsers: nat, charts: Charts)

  /** `buildDashboardStats(organizationId)`. */
  function BuildDashboardStats(db: Db, org: string, now: int, cal: int -> CalendarDate): (m: Metrics)
    ensures var s := ScopeOf(db, org);
      m.totalProjects == |s.projects| && m.totalTeams == |s.teams| && m.totalUsers == |s.users| &&
      Total(m.charts.projectStatusDistribution) == m.totalProjects &&
      m.charts.completedTasks + m.charts.activeTasks == m.charts.totalTasks &&
      (forall t :: t in m.charts.teamPerformance ==> t.memberCount == 0)
  {
    var s := ScopeOf(db, org);
    Metrics(|s.projects|, |s.teams|, |s.users|,
            BuildCharts(s, db.statuses, db.log, NoMembers, now, cal))
  }

  // ---------------------------------------------------------------------
  // GET /:organizationId
  // ---------------------------------------------------------------------

  /** Projects whose finish date is strictly in the future. */
  predicate Upcoming(p: ProjectRow, now: int) {
    p.finishDate.Some? && p.finishDate.value - now > 0
  }

  datatype Deadline = Deadline(id: string, name: string, deadline: int, daysRemaining: nat)

  /** Whole days left, `Math.floor(diff / day)`. */
  function DaysRemaining(finish: int, now: int): (d: nat)
    requires finish > now
    ensures d * DayMs <= finish - now < (d + 1) * DayMs
  {
    FloorDiv(finish - now, DayMs)
  }

  /** The deadline list: the upcoming projects in order, each with its
      finish date and the whole days left. */
  function Deadlines(ps: seq<ProjectRow>, now: int): (r: seq<Deadline>)
    ensures |r| == CountWhere(ps, (p: ProjectRow) => Upcoming(p, now))
    ensures forall d :: d in r ==> d.deadline > now && d.daysRemaining * DayMs <= d.deadline - now < (d.daysRemaining + 1) * DayMs
    ensures forall d :: d in r ==> exists p :: p in ps && Upcoming(p, now) && d.id == p.docId && d.deadline == p.finishDate.value
  {
    if ps == [] then []
    else
      var rest := Deadlines(ps[1..], now);
      assert forall p :: p in ps[1..] ==> p in ps;
      if Upcoming(ps[0], now) then
        var f := ps[0].finishDate.value;
        [Deadline(ps[0].docId, ps[0].name, f, DaysRemaining(f, now))] + rest
      else rest
  }

  /** The first letters of the names, upper-cased, or "U" when both names
      are empty. */
  function Initials(first: string, last: string): (r: string)
    ensures 1 <= |r| <= 2
    ensures first != "" && last != "" ==> r == [UpperChar(first[0]), UpperChar(last[0])]
    ensures first != "" && last == "" ==> r == [UpperChar(first[0])]
    ensures first == "" && last != "" ==> r == [UpperChar(last[0])]
    ensures first == "" && last == "" ==> r == "U"
  {
    var s := (if first == "" then "" else [first[0]]) + (if last == "" then "" else [last[0]]);
    if s == "" then "U" else Upper(s)
  }

  datatype MemberCard = MemberCard(
    id: string,
    name: string,
    email: string,
    isActive: bool,
    role: string,
    initials: string,
    lastLogin: Option<int>,
    status: string,
    username: string)

  function OrDefault(s: string, d: string): (r: string)
    ensures s != "" ==> r == s
    ensures s == "" ==> r == d
  {
    if s != "" then s else d
  }

  /** One member card: defaults for the falsy fields, and the user's
      latest successful login. */
  function Card(u: UserRow, lastLogins: map<string, int>): (c: MemberCard)
    ensures c.id == u.id && c.initials == Initials(u.firstName, u.lastName)
    ensures c.name == Trim(u.firstName + " " + u.lastName)
    ensures c.email == OrDefault(u.email, "No email") && c.role == OrDefault(u.role, "User")
    ensures c.username == OrDefault(u.username, "No username")
    ensures c.status == OrDefault(u.status, if u.isActive then "Active" else "Offline")
    ensures c.lastLogin.Some? <==> u.id in lastLogins
    ensures c.lastLogin.Some? ==> c.lastLogin.value == lastLogins[u.id]
  {
    MemberCard(u.id, Trim(u.firstName + " " + u.lastName), OrDefault(u.email, "No email"), u.isActive,
               OrDefault(u.role, "User"), Initials(u.firstName, u.lastName),
               if u.id in lastLogins then Some(lastLogins[u.id]) else None,
               OrDefault(u.status, if u.isActive then "Active" else "Offline"), OrDefault(u.username, "No username"))
  }

  datatype RecentProject = RecentProject(project: ProjectRow, projectStatus: string)

  datatype RecentTeam = RecentTeam(id: string, name: string, memberCount: nat)

  /** The first five teams, each with the member count `count` gives it. */
  function RecentTeams(teams: seq<TeamRow>, count: string -> nat): (r: seq<RecentTeam>)
    ensures |r| == |Take(teams, 5)| && |r| <= |teams|
    ensures forall i :: 0 <= i < |r| ==>
      r[i] == RecentTeam(teams[i].docId, teams[i].teamName, count(teams[i].teamId))
  {
    var first := Take(teams, 5);
    seq(|first|, i requires 0 <= i < |first| => RecentTeam(first[i].docId, first[i].teamName, count(first[i].teamId)))
  }

  datatype Details = Details(
    totalProjects: nat,
    totalTeams: nat,
    totalUsers: nat,
    upcomingDeadlines: nat,
    organizationName: string,
    recentProjects: seq<RecentProject>,
    recentTeams: seq<RecentTeam>,
    deadlineDetails: seq<Deadline>,
    members: seq<MemberCard>,
    invites: seq<Invites.Invite>,
    charts: Charts)

  /** The answer and the invite collection after the expiry sweep. */
  datatype DetailsReply = DetailsReply(status: nat, details: Option<Details>, invites: seq<Invites.Invite>)

  function Take<T>(s: seq<T>, n: nat): (r: seq<T>)
    ensures |r| == (if |s| < n then |s| else n) && r == s[..|r|]
  {
    if |s| < n then s else s[..n]
  }

  /** A decimal organization id as the `OrganizationID` number query casts it. */
  predicate Decimal(s: string) {
    s != [] && forall i :: 0 <= i < |s| ==> IsDigit(s[i])
  }

  /** `organization?.Name || 'Unknown Organization'`: the name of the first
      organization with this number, or the fallback when there is none or
      its name is empty. */
  function OrganizationName(orgs: seq<OrganizationModel.Organization>, org: string): (n: string)
    requires Decimal(org)
    ensures n != ""
    ensures (forall j :: 0 <= j < |orgs| ==> orgs[j].organizationID != DigitsValue(org)) ==>
      n == "Unknown Organization"
    ensures forall k :: 0 <= k < |orgs| && orgs[k].organizationID == DigitsValue(org) &&
                        (forall j :: 0 <= j < k ==> orgs[j].organizationID != DigitsValue(org)) ==>
                          n == (if orgs[k].name != "" then orgs[k].name else "Unknown Organization")
  {
    match FirstWhere(orgs, (o: OrganizationModel.Organization) => o.organizationID == DigitsValue(org))
    case None => "Unknown Organization"
    case Some(k) => OrDefault(orgs[k].name, "Unknown Organization")
  }

  /** The route with team member counts from `count`.  The invites of the
      organization are swept first; a malformed organization id then fails
      the organization lookup and gives 500, otherwise the dashboard is
      answered. */
  function DetailsWith(db: Db, org: string, now: int, cal: int -> CalendarDate, count: string -> nat): (r: DetailsReply)
    ensures r.status == 500 <==> !Decimal(org)
    ensures r.status == 500 ==> r.details.None?
    ensures r.status != 500 ==> r.status == 200 && r.details.Some?
    ensures r.invites == Invites.ListInvites(db.invites, org, now).store
    ensures r.details.Some? ==> var d := r.details.value; var s := ScopeOf(db, org);
      d.totalProjects == |s.projects| && d.totalTeams == |s.teams| && d.totalUsers == |s.users| &&
      d.upcomingDeadlines == |d.deadlineDetails| == CountWhere(s.projects, (p: ProjectRow) => Upcoming(p, now)) &&
      d.recentTeams == RecentTeams(s.teams, count) && |d.recentProjects| == |Take(s.projects, 5)| &&
      d.members == Members(s.users, Teams.LastLogins(db.log, UserIds(s.users))) &&
      d.invites == Invites.ListInvites(db.invites, org, now).listed &&
      d.charts.teamPerformance == TeamPerformance(s.teams, s.projects, count)
  {
    var sweep := Invites.ListInvites(db.invites, org, now);
    if !Decimal(org) then DetailsReply(500, None, sweep.store)
    else
      var s := ScopeOf(db, org);
      var deadlines := Deadlines(s.projects, now);
      var lastLogins := Teams.LastLogins(db.log, UserIds(s.users));
      var recent := Take(s.projects, 5);
      var d := Details(
        |s.projects|, |s.teams|, |s.users|, |deadlines|, OrganizationName(db.organizations, org),
        seq(|recent|, i requires 0 <= i < |recent| => RecentProject(recent[i], StatusLabel(db.statuses, recent[i].statusId))),
        RecentTeams(s.teams, count),
        deadlines,
        Members(s.users, lastLogins),
        sweep.listed,
        BuildCharts(s, db.statuses, db.log, count, now, cal));
      DetailsReply(200, Some(d), sweep.store)
  }

  function Members(us: seq<UserRow>, lastLogins: map<string, int>): (r: seq<MemberCard>)
    ensures |r| == |us| && forall i :: 0 <= i < |us| ==> r[i] == Card(us[i], lastLogins)
  {
    seq(|us|, i requires 0 <= i < |us| => Card(us[i], lastLogins))
  }

  /** The route as written: every team shows no members, on the team cards
      and in the recent teams alike. */
  function DashboardDetails(db: Db, org: string, now: int, cal: int -> CalendarDate): (r: DetailsReply)
    ensures r.details.Some? ==>
      (forall t :: t in r.details.value.charts.teamPerformance ==> t.memberCount == 0) &&
      (forall t :: t in r.details.value.recentTeams ==> t.memberCount == 0)
  {
    DetailsWith(db, org, now, cal, NoMembers)
  }

  /** The route with each team's memberships counted. */
  function DashboardDetailsIntended(db: Db, org: string, now: int, cal: int -> CalendarDate): (r: DetailsReply)
    ensures r.details.Some? ==> var s := ScopeOf(db, org); var d := r.details.value;
      |d.charts.teamPerformance| == |s.teams| &&
      (forall i :: 0 <= i < |s.teams| ==> d.charts.teamPerformance[i].memberCount == MembersOf(db.memberships, s.teams[i].teamId)) &&
      |d.recentTeams| <= |s.teams| &&
      (forall i :: 0 <= i < |d.recentTeams| ==> d.recentTeams[i].memberCount == MembersOf(db.memberships, s.teams[i].teamId))
  {
    var count := MembershipCount(db.memberships);
    var s := ScopeOf(db, org);
    CountedTeams(s.teams, s.projects, db.memberships);
    DetailsWith(db, org, now, cal, count)
  }

  /** With memberships counted, the team cards and the recent teams show
      each team's memberships. */
  lemma CountedTeams(teams: seq<TeamRow>, ps: seq<ProjectRow>, ms: seq<Workspace.Membership>)
    ensures var perf := TeamPerformance(teams, ps, MembershipCount(ms));
      |perf| == |teams| && forall i :: 0 <= i < |teams| ==> perf[i].memberCount == MembersOf(ms, teams[i].teamId)
    ensures var recent := RecentTeams(teams, MembershipCount(ms));
      |recent| <= |teams| && forall i :: 0 <= i < |recent| ==> recent[i].memberCount == MembersOf(ms, teams[i].teamId)
  {
  }

  /** A member card shows a last login exactly when the user has a
      successful login, and then the latest one. */
  lemma CardShowsLatestLogin(log: seq<Activity.Record>, ids: set<string>, u: UserRow)
    requires u.id in ids
    ensures var c := Card(u, Teams.LastLogins(log, ids));
      (c.lastLogin.Some? <==> exists k :: 0 <= k < |log| && Teams.IsLoginOf(log[k], {u.id})) &&
      (c.lastLogin.Some? ==>
         (exists k :: 0 <= k < |log| && Teams.IsLoginOf(log[k], {u.id}) && log[k].timestamp == c.lastLogin.value) &&
         forall k :: 0 <= k < |log| && Teams.IsLoginOf(log[k], {u.id}) ==> log[k].timestamp <= c.lastLogin.value)
  {
    Teams.LastLoginsAreLatest(log, ids);
    assert forall k :: 0 <= k < |log| && Teams.IsLoginOf(log[k], {u.id}) ==> Teams.IsLoginOf(log[k], ids);
    assert forall k :: 0 <= k < |log| && Teams.IsLoginOf(log[k], ids) && log[k].user.value == u.id ==>
      Teams.IsLoginOf(log[k], {u.id});
  }

  /** The route's member cards are the organization's users, each with
      its latest successful login. */
  lemma DetailsShowLatestLogin(db: Db, org: string, now: int, cal: int -> CalendarDate, i: nat)
    requires Decimal(org)
    requires i < |ScopeOf(db, org).users|
    ensures var d := DashboardDetails(db, org, now, cal).details.value;
      var s := ScopeOf(db, org);
      i < |d.members| && d.members[i] == Card(s.users[i], Teams.LastLogins(db.log, UserIds(s.users))) &&
      s.users[i].id in UserIds(s.users)
  {
    var s := ScopeOf(db, org);
    assert s.users[i] in s.users;
  }

  /** The invites shown are never Pending past their expiry. */
  lemma DetailsShowNoStaleInvite(db: Db, org: string, now: int, cal: int -> CalendarDate)
    requires Decimal(org)
    ensures forall v :: v in DashboardDetails(db, org, now, cal).details.value.invites ==>
      !(v.status == Invites.Pending && Invites.IsExpired(v, now))
  {
    var d := DashboardDetails(db, org, now, cal).details.value;
    assert d.invites == Invites.ListInvites(db.invites, org, now).listed;
  }

  /** The route's charts and totals are the ones the metrics service
      broadcasts for the same organization at the same instant. */
  lemma DetailsAgreeWithMetrics(db: Db, org: string, now: int, cal: int -> CalendarDate)
    requires Decimal(org)
    ensures var d := DashboardDetails(db, org, now, cal).details.value;
      var m := BuildDashboardStats(db, org, now, cal);
      d.charts == m.charts && d.totalProjects == m.totalProjects && d.totalTeams == m.totalTeams &&
      d.totalUsers == m.totalUsers
  {
  }
}
