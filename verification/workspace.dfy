/** The documents shared by the team and project routes (models/Team.js,
    models/TeamDetails.js, models/Project.js, models/ProjectDetails.js,
    models/TeamJoinRequest.js): their fields, their schema validation and
    the lookups the handlers make. */
module Workspace {
  import opened Common
  import Activity
  import Gateway
  import PremiumLimits

  /** The `maxlength` of names, of descriptions and of `ModifiedBy`. */
  const NameMax: nat := 50
  const DescriptionMax: nat := 100
  const ModifiedByMax: nat := 50

  /** An optional string within a `maxlength`. */
  predicate Fits(o: Option<string>, n: nat) {
    o.None? || |o.value| <= n
  }

  /** A team; `organizationID` is the empty string when the owner had none. */
  datatype Team = Team(
    teamId: string,
    name: string,
    description: Option<string>,
    teamType: int,
    ownerId: string,
    organizationID: string,
    isActive: bool,
    createdDate: int,
    modifiedDate: Option<int>,
    modifiedBy: Option<string>)

  /** Mongoose validation of a team: a required string must be non-empty. */
  predicate ValidTeam(t: Team) {
    t.name != "" && |t.name| <= NameMax && Fits(t.description, DescriptionMax) &&
    t.ownerId != "" && Fits(t.modifiedBy, ModifiedByMax)
  }

  /** A `TeamDetails` document: one user's membership of one team. */
  datatype Membership = Membership(
    teamId: string,
    memberId: string,
    isMemberActive: bool,
    createdDate: int,
    modifiedDate: Option<int>,
    modifiedBy: Option<string>)

  predicate ValidMembership(m: Membership) {
    m.teamId != "" && m.memberId != ""
  }

  /** A project; `finishDate` is `None` for a null date. */
  datatype Project = Project(
    projectId: string,
    organizationID: string,
    name: string,
    description: Option<string>,
    owner: string,
    isActive: bool,
    statusId: int,
    finishDate: Option<int>,
    createdDate: int,
    modifiedDate: Option<int>,
    modifiedBy: Option<string>)

  predicate ValidProject(p: Project) {
    p.organizationID != "" && p.name != "" && |p.name| <= NameMax &&
    Fits(p.description, DescriptionMax) && p.owner != "" && Fits(p.modifiedBy, ModifiedByMax)
  }

  /** The project status codes the routes write. */
  const Unassigned: int := 1
  const Assigned: int := 2

  /** A `ProjectDetails` document: one team assigned to one project. */
  datatype Assignment = Assignment(
    projectId: string,
    teamId: string,
    isActive: bool,
    createdDate: int,
    modifiedDate: Option<int>,
    modifiedBy: Option<string>)

  predicate ValidAssignment(a: Assignment) {
    a.projectId != "" && a.teamId != "" && Fits(a.modifiedBy, ModifiedByMax)
  }

  datatype RequestStatus = Pending | Accepted | Rejected

  /** A request by a user to join a team. */
  datatype JoinRequest = JoinRequest(
    requestId: string,
    userId: string,
    teamId: string,
    status: RequestStatus,
    requestedAt: int,
    respondedAt: Option<int>,
    respondedBy: Option<string>)

  predicate ValidRequest(q: JoinRequest) {
    q.userId != "" && q.teamId != ""
  }

  /** A user as the e-mail lookup sees it. */
  datatype Person = Person(id: string, email: string)

  /** The collections the routes read and write.  `db` holds each user's
      subscription and organization and the organizations' usage counters. */
  datatype Store = Store(
    people: seq<Person>,
    db: PremiumLimits.Db,
    teams: seq<Team>,
    members: seq<Membership>,
    projects: seq<Project>,
    assignments: seq<Assignment>,
    requests: seq<JoinRequest>,
    log: seq<Activity.Record>,
    io: Gateway.Server)

  /** The store after a request and the HTTP status of the answer. */
  datatype Response = Response(store: Store, status: nat)

  // ---------------------------------------------------------------------
  // Lookups (`findOne` returns the first match)
  // ---------------------------------------------------------------------

  function TeamIndex(ts: seq<Team>, teamId: string): (r: Option<nat>)
    ensures r.Some? ==> r.value < |ts| && ts[r.value].teamId == teamId
    ensures r.None? <==> forall j :: 0 <= j < |ts| ==> ts[j].teamId != teamId
  {
    FirstWhere(ts, (t: Team) => t.teamId == teamId)
  }

  function MemberIndex(ms: seq<Membership>, teamId: string, memberId: string): (r: Option<nat>)
    ensures r.Some? ==> r.value < |ms| && ms[r.value].teamId == teamId && ms[r.value].memberId == memberId
    ensures r.None? <==> forall j :: 0 <= j < |ms| ==> !(ms[j].teamId == teamId && ms[j].memberId == memberId)
  {
    FirstWhere(ms, (m: Membership) => m.teamId == teamId && m.memberId == memberId)
  }

  function ProjectIndex(ps: seq<Project>, projectId: string): (r: Option<nat>)
    ensures r.Some? ==> r.value < |ps| && ps[r.value].projectId == projectId
    ensures r.None? <==> forall j :: 0 <= j < |ps| ==> ps[j].projectId != projectId
  {
    FirstWhere(ps, (p: Project) => p.projectId == projectId)
  }

  function AssignmentIndex(assigns: seq<Assignment>, projectId: string, teamId: string): (r: Option<nat>)
    ensures r.Some? ==> r.value < |assigns| && assigns[r.value].projectId == projectId && assigns[r.value].teamId == teamId
    ensures r.None? <==> forall j :: 0 <= j < |assigns| ==> !(assigns[j].projectId == projectId && assigns[j].teamId == teamId)
  {
    FirstWhere(assigns, (a: Assignment) => a.projectId == projectId && a.teamId == teamId)
  }

  function RequestIndex(rs: seq<JoinRequest>, requestId: string): (r: Option<nat>)
    ensures r.Some? ==> r.value < |rs| && rs[r.value].requestId == requestId
    ensures r.None? <==> forall j :: 0 <= j < |rs| ==> rs[j].requestId != requestId
  {
    FirstWhere(rs, (q: JoinRequest) => q.requestId == requestId)
  }

  /** `User.findOne({ email })`: the id of the first user with that address. */
  function PersonByEmail(ps: seq<Person>, email: string): (r: Option<string>)
    ensures r.Some? ==> exists j :: 0 <= j < |ps| && ps[j].email == email && ps[j].id == r.value
    ensures r.None? <==> forall j :: 0 <= j < |ps| ==> ps[j].email != email
  {
    match FirstWhere(ps, (p: Person) => p.email == email)
    case None => None
    case Some(j) => Some(ps[j].id)
  }

  /** The number of teams assigned to a project (`countDocuments`). */
  function AssignedCount(assigns: seq<Assignment>, projectId: string): nat {
    CountWhere(assigns, (a: Assignment) => a.projectId == projectId)
  }

  /** `team?.organizationID` as the `org:` room name renders it: a missing
      team gives `undefined`. */
  function OrgOf(ts: seq<Team>, teamId: string): string {
    match TeamIndex(ts, teamId)
    case None => "undefined"
    case Some(i) => ts[i].organizationID
  }

  /** `logActivity` with the schema's type enum; only the log is kept. */
  function Log(log: seq<Activity.Record>, user: Option<string>, typ: string, status: string,
               details: string, meta: map<string, string>, now: int): seq<Activity.Record>
  {
    Activity.LogActivity(log, user, typ, status, details, meta, None, now).log
  }

  /** No two memberships of the same user in the same team. */
  predicate UniqueMemberships(ms: seq<Membership>) {
    forall i, j :: 0 <= i < j < |ms| ==> !(ms[i].teamId == ms[j].teamId && ms[i].memberId == ms[j].memberId)
  }

  /** The owner of team `t` is a member of it. */
  predicate OwnerIsMember(ms: seq<Membership>, t: Team) {
    exists j :: 0 <= j < |ms| && ms[j].teamId == t.teamId && ms[j].memberId == t.ownerId
  }
}
