/** The project routes (routes/projectRoutes.js, routes/projectDetailsRoutes.js):
    creation behind the project limit, partial update, the active flag,
    role-based listing, and the teams assigned to a project with the
    status promotion on the first one. */
module Projects {
  import opened Common
  import Activity
  import Gateway
  import PremiumLimits
  import opened Workspace

  // ---------------------------------------------------------------------
  // Listing
  // ---------------------------------------------------------------------

  /** A project reachable from a user: an active membership of a team that
      is actively assigned to it. */
  predicate Reachable(st: Store, userId: string, projectId: string) {
    exists i, j :: 0 <= i < |st.members| && 0 <= j < |st.assignments| &&
      st.members[i].memberId == userId && st.members[i].isMemberActive &&
      st.assignments[j].teamId == st.members[i].teamId && st.assignments[j].isActive &&
      st.assignments[j].projectId == projectId
  }

  /** `GET /api/projects/:userId/:type`: an `Admin` sees the projects they
      own; anyone else the projects reachable through an active team. */
  function ListProjects(st: Store, userId: string, typ: string): (r: seq<Project>)
    ensures typ == "Admin" ==> forall p :: p in r <==> p in st.projects && p.owner == userId
    ensures typ != "Admin" ==> forall p :: p in r <==> p in st.projects && Reachable(st, userId, p.projectId)
    ensures |r| <= |st.projects|
  {
    if typ == "Admin" then Filter(st.projects, (p: Project) => p.owner == userId)
    else
      var teamIds := set i | 0 <= i < |st.members| && st.members[i].memberId == userId && st.members[i].isMemberActive
                          :: st.members[i].teamId;
      var projectIds := set j | 0 <= j < |st.assignments| && st.assignments[j].teamId in teamIds && st.assignments[j].isActive
                             :: st.assignments[j].projectId;
      Filter(st.projects, (p: Project) => p.projectId in projectIds)
  }

  // ---------------------------------------------------------------------
  // Creation
  // ---------------------------------------------------------------------

  /** The body fields of `POST /api/projects`; `finishDate` is `None` when
      the date is absent or unparsable. */
  datatype ProjectBody = ProjectBody(
    name: Option<string>,
    description: Option<string>,
    owner: Option<string>,
    organizationID: Option<string>,
    finishDate: Option<int>)

  /** The body as `incrementUsage` classifies it: a name and an owner. */
  function UsageBody(b: ProjectBody): PremiumLimits.Body {
    PremiumLimits.Body(b.name, b.owner, None, None, None, None)
  }

  /** The project-limit gate: `ProjectOwner`, else the authenticated user. */
  function ProjectGate(st: Store, b: ProjectBody, authUser: Option<string>, now: int): PremiumLimits.Outcome {
    PremiumLimits.CheckLimit(st.db, PremiumLimits.ProjectKind, PremiumLimits.FirstTruthy([b.owner, authUser]), now)
  }

  /** The project a creation builds: active, status 1. */
  function NewProject(b: ProjectBody, projectId: string, now: int): Project
    requires Truthy(b.name) && Truthy(b.organizationID) && Truthy(b.owner)
  {
    Project(projectId, b.organizationID.value, b.name.value, b.description, b.owner.value,
            true, Unassigned, b.finishDate, now, None, None)
  }

  /** A new project saves when it validates, has a valid finish date and
      its id is new. */
  predicate Saves(st: Store, b: ProjectBody, projectId: string, now: int)
    requires Truthy(b.name) && Truthy(b.organizationID) && Truthy(b.owner)
  {
    ValidProject(NewProject(b, projectId, now)) && b.finishDate.Some? && ProjectIndex(st.projects, projectId).None?
  }

  /** `POST /api/projects` behind the project limit: the name (400), the
      organization (400) and the owner (401) are required in that order; a
      saved project raises the organization's project counter and is
      logged, and the organization's dashboard is refreshed. */
  function CreateProject(st: Store, b: ProjectBody, authUser: Option<string>, projectId: string, now: int): (r: Response)
    ensures r.status == 201 || (r.store.projects == st.projects && r.store.db == st.db)
    ensures ProjectGate(st, b, authUser, now).Next? ==>
      (r.status == 400 <==> !Truthy(b.name) || !Truthy(b.organizationID)) &&
      (r.status == 401 <==> Truthy(b.name) && Truthy(b.organizationID) && !Truthy(b.owner))
    ensures ProjectGate(st, b, authUser, now).LimitReached? ==> r.status == 403 && r.store == st
    ensures r.status == 201 <==>
      ProjectGate(st, b, authUser, now).Next? && Truthy(b.name) && Truthy(b.organizationID) && Truthy(b.owner) &&
      Saves(st, b, projectId, now)
    ensures r.status == 201 ==>
      |r.store.projects| == |st.projects| + 1 &&
      var p := r.store.projects[|st.projects|];
      r.store.projects == st.projects + [p] && p.isActive && p.statusId == Unassigned &&
      p.projectId == projectId && Some(p.name) == b.name && Some(p.owner) == b.owner &&
      Some(p.organizationID) == b.organizationID && p.finishDate == b.finishDate &&
      r.store.db == PremiumLimits.IncrementUsage(st.db, UsageBody(b), authUser) &&
      Gateway.Sent(st.io, r.store.io, [Gateway.DashboardNotice(b.organizationID.value)])
    ensures r.status != 201 ==> r.store.io == st.io
  {
    match ProjectGate(st, b, authUser, now)
    case Reject(c) => Response(st, c)
    case LimitReached(_, _, _) => Response(st, 403)
    case Next =>
      if !Truthy(b.name) || !Truthy(b.organizationID) then Response(st, 400)
      else if !Truthy(b.owner) then Response(st, 401)
      else if !Saves(st, b, projectId, now) then
        Response(st.(log := Log(st.log, b.owner, "project_create", "error", "Failed to create project",
                                map["projectName" := b.name.value], now)), 500)
      else
        var p := NewProject(b, projectId, now);
        var db := PremiumLimits.IncrementUsage(st.db, UsageBody(b), authUser);
        var log := Log(st.log, b.owner, "project_create", "success", "Created new project",
                       map["projectId" := projectId, "projectName" := b.name.value], now);
        var io := Gateway.EmitDashboardMetrics(st.io, b.organizationID.value);
        Response(st.(projects := st.projects + [p], db := db, log := log, io := io), 201)
  }

  /** A created project is counted: the owner's organization's project
      counter goes up by one and no other counter moves. */
  lemma CreateProjectCounts(st: Store, b: ProjectBody, authUser: Option<string>, projectId: string, now: int)
    requires CreateProject(st, b, authUser, projectId, now).status == 201
    ensures var org := st.db.users[b.owner.value].organizationID.value;
      var db := CreateProject(st, b, authUser, projectId, now).store.db;
      org in st.db.orgs && org in db.orgs &&
      db.orgs[org].counters == st.db.orgs[org].counters.(projectsCreated := st.db.orgs[org].counters.projectsCreated + 1)
  {
    assert PremiumLimits.FirstTruthy([b.owner, authUser]) == b.owner;
    assert PremiumLimits.FirstTruthy([UsageBody(b).projectOwner, UsageBody(b).createdBy, UsageBody(b).ownerID, authUser]) == b.owner;
    assert PremiumLimits.Classify(UsageBody(b)) == Some(PremiumLimits.ProjectKind);
  }

  // ---------------------------------------------------------------------
  // Update and toggle
  // ---------------------------------------------------------------------

  /** A `FinishDate` in an update: absent, falsy (clears the date), a date,
      or a value that is not a date. */
  datatype DateField = Absent | Falsy | Date(ms: int) | NotADate

  /** The project after `PATCH /:projectId`: the name only when truthy,
      the description and status when given, the finish date as `DateField`
      says. */
  function Patched(p: Project, name: Option<string>, description: Option<Option<string>>, finish: DateField,
                   statusId: Option<int>, now: int): Project
  {
    p.(name := if Truthy(name) then name.value else p.name,
       description := if description.Some? then description.value else p.description,
       finishDate := match finish
         case Absent => p.finishDate
         case Falsy => None
         case Date(ms) => Some(ms)
         case NotADate => p.finishDate,
       statusId := if statusId.Some? then statusId.value else p.statusId,
       modifiedDate := Some(now))
  }

  /** `q` is `p` after the handler's assignments: the name when truthy,
      the description and status when given, the finish date as given
      (null when falsy), the modification time now, and every other field
      as it was. */
  predicate Updated(p: Project, q: Project, name: Option<string>, description: Option<Option<string>>,
                    finish: DateField, statusId: Option<int>, now: int)
  {
    (Truthy(name) ==> q.name == name.value) && (!Truthy(name) ==> q.name == p.name) &&
    (description.None? ==> q.description == p.description) &&
    (description.Some? ==> q.description == description.value) &&
    (finish == Falsy ==> q.finishDate.None?) && (finish == Absent ==> q.finishDate == p.finishDate) &&
    (finish.Date? ==> q.finishDate == Some(finish.ms)) &&
    (statusId.None? ==> q.statusId == p.statusId) && (statusId.Some? ==> q.statusId == statusId.value) &&
    q.modifiedDate == Some(now) &&
    q.isActive == p.isActive && q.owner == p.owner && q.projectId == p.projectId &&
    q.organizationID == p.organizationID && q.createdDate == p.createdDate && q.modifiedBy == p.modifiedBy
  }

  /** `PATCH /:projectId`: 404 for an unknown project; an update that does
      not validate answers 500 with an error activity; a saved one refreshes
      its organization's dashboard. */
  function UpdateProject(st: Store, projectId: string, name: Option<string>, description: Option<Option<string>>,
                         finish: DateField, statusId: Option<int>, now: int): (r: Response)
    ensures r.status == 404 <==> ProjectIndex(st.projects, projectId).None?
    ensures r.status != 200 ==> r.store.projects == st.projects
    ensures r.status == 200 ==>
      ProjectIndex(st.projects, projectId).Some? && |r.store.projects| == |st.projects| &&
      var i := ProjectIndex(st.projects, projectId).value;
      var p, q := st.projects[i], r.store.projects[i];
      finish != NotADate && ValidProject(q) && Updated(p, q, name, description, finish, statusId, now) &&
      (forall k :: 0 <= k < |st.projects| && k != i ==> r.store.projects[k] == st.projects[k]) &&
      Gateway.Sent(st.io, r.store.io, [Gateway.DashboardNotice(p.organizationID)])
    ensures r.status != 200 ==> r.store.io == st.io
  {
    match ProjectIndex(st.projects, projectId)
    case None => Response(st, 404)
    case Some(i) =>
      var p := st.projects[i];
      var q := Patched(p, name, description, finish, statusId, now);
      if finish == NotADate || !ValidProject(q) then
        Response(st.(log := Log(st.log, Some(p.owner), "project_update", "error", "Failed to update project",
                                map["projectId" := projectId], now)), 500)
      else
        var log := Log(st.log, Some(q.owner), "project_update", "success", "Updated project",
                       map["projectId" := projectId, "projectName" := q.name], now);
        var io := Gateway.EmitDashboardMetrics(st.io, q.organizationID);
        Response(st.(projects := st.projects[i := q], log := log, io := io), 200)
  }

  /** Applying the same update twice leaves the project as once. */
  lemma UpdateProjectIdempotent(st: Store, projectId: string, name: Option<string>, description: Option<Option<string>>,
                                finish: DateField, statusId: Option<int>, now: int)
    requires UpdateProject(st, projectId, name, description, finish, statusId, now).status == 200
    ensures var r1 := UpdateProject(st, projectId, name, description, finish, statusId, now);
      var r2 := UpdateProject(r1.store, projectId, name, description, finish, statusId, now);
      r2.status == 200 && r2.store.projects == r1.store.projects
  {
    var r1 := UpdateProject(st, projectId, name, description, finish, statusId, now);
    var i := ProjectIndex(st.projects, projectId).value;
    assert ProjectIndex(r1.store.projects, projectId) == Some(i);
    UpdatedIsFixed(st.projects[i], r1.store.projects[i], name, description, finish, statusId, now);
    UpdateFixedPoint(r1.store, projectId, i, name, description, finish, statusId, now);
  }

  /** A project already updated is its own patch. */
  lemma UpdatedIsFixed(p: Project, q: Project, name: Option<string>, description: Option<Option<string>>,
                       finish: DateField, statusId: Option<int>, now: int)
    requires finish != NotADate && Updated(p, q, name, description, finish, statusId, now)
    ensures Patched(q, name, description, finish, statusId, now) == q
  {
  }

  /** An update that leaves the found project as it is saves the same
      projects. */
  lemma UpdateFixedPoint(st: Store, projectId: string, i: nat, name: Option<string>, description: Option<Option<string>>,
                         finish: DateField, statusId: Option<int>, now: int)
    requires ProjectIndex(st.projects, projectId) == Some(i) && i < |st.projects|
    requires Patched(st.projects[i], name, description, finish, statusId, now) == st.projects[i]
    requires finish != NotADate && ValidProject(st.projects[i])
    ensures UpdateProject(st, projectId, name, description, finish, statusId, now).status == 200
    ensures UpdateProject(st, projectId, name, description, finish, statusId, now).store.projects == st.projects
  {
    assert st.projects[i := st.projects[i]] == st.projects;
  }

  /** `PATCH /:projectId/toggle-status`: flips the active flag and nothing
      else. */
  function ToggleProject(st: Store, projectId: string, now: int): (r: Response)
    ensures r.status == 404 <==> ProjectIndex(st.projects, projectId).None?
    ensures r.status != 200 ==> r.store == st
    ensures r.status == 200 ==>
      ProjectIndex(st.projects, projectId).Some? && |r.store.projects| == |st.projects| &&
      var i := ProjectIndex(st.projects, projectId).value;
      r.store.projects[i] == st.projects[i].(isActive := !st.projects[i].isActive, modifiedDate := Some(now)) &&
      (forall k :: 0 <= k < |st.projects| && k != i ==> r.store.projects[k] == st.projects[k]) &&
      r.store == st.(projects := r.store.projects)
  {
    match ProjectIndex(st.projects, projectId)
    case None => Response(st, 404)
    case Some(i) =>
      var q := st.projects[i].(isActive := !st.projects[i].isActive, modifiedDate := Some(now));
      if !ValidProject(q) then Response(st, 500)
      else Response(st.(projects := st.projects[i := q]), 200)
  }

  // ---------------------------------------------------------------------
  // Teams on a project
  // ---------------------------------------------------------------------

  /** The answer of `add-team`: the response and its `statusUpdated` flag. */
  datatype AddTeamResult = AddTeamResult(response: Response, statusUpdated: bool)

  /** `POST /:projectId/add-team`: 400 without a team or when the team is
      already on the project, 404 for an unknown project; otherwise an
      active assignment, and the first team on a status-1 project moves it
      to status 2. */
  function AddTeam(st: Store, projectId: string, teamId: Option<string>, modifiedBy: Option<string>, now: int): (r: AddTeamResult)
    ensures r.response.status == 400 <==>
      !Truthy(teamId) || AssignmentIndex(st.assignments, projectId, teamId.value).Some?
    ensures r.response.status == 404 <==>
      Truthy(teamId) && AssignmentIndex(st.assignments, projectId, teamId.value).None? &&
      ProjectIndex(st.projects, projectId).None?
    ensures r.response.status != 201 ==>
      r.response.store.projects == st.projects && r.response.store.assignments == st.assignments && !r.statusUpdated
    ensures r.response.status == 201 ==>
      Truthy(teamId) && ProjectIndex(st.projects, projectId).Some? &&
      var i := ProjectIndex(st.projects, projectId).value;
      var p := st.projects[i];
      r.response.store.assignments == st.assignments + [Assignment(projectId, teamId.value, true, now, None, modifiedBy)] &&
      |r.response.store.projects| == |st.projects| &&
      (r.statusUpdated <==> AssignedCount(st.assignments, projectId) == 0 && p.statusId == Unassigned) &&
      r.response.store.projects[i].statusId == (if r.statusUpdated then Assigned else p.statusId) &&
      (forall k :: 0 <= k < |st.projects| && k != i ==> r.response.store.projects[k] == st.projects[k])
  {
    if !Truthy(teamId) then AddTeamResult(Response(st, 400), false)
    else if AssignmentIndex(st.assignments, projectId, teamId.value).Some? then AddTeamResult(Response(st, 400), false)
    else
      var existing := AssignedCount(st.assignments, projectId);
      match ProjectIndex(st.projects, projectId)
      case None => AddTeamResult(Response(st, 404), false)
      case Some(i) =>
        var p := st.projects[i];
        var a := Assignment(projectId, teamId.value, true, now, None, modifiedBy);
        if !ValidAssignment(a) then
          AddTeamResult(Response(st.(log := Log(st.log, modifiedBy, "project_team_add", "error", "Failed to add team to project",
                                                map["projectId" := projectId, "teamId" := teamId.value], now)), 500), false)
        else
          var promote := existing == 0 && p.statusId == Unassigned;
          var projects := if promote then st.projects[i := p.(statusId := Assigned, modifiedDate := Some(now), modifiedBy := modifiedBy)]
                          else st.projects;
          var log := Log(st.log, modifiedBy, "project_team_add", "success", "Added team to project",
                         map["projectId" := projectId, "teamId" := teamId.value], now);
          AddTeamResult(Response(st.(assignments := st.assignments + [a], projects := projects, log := log), 201), promote)
  }

  /** `PATCH /:projectId/team/:teamId/toggle`: flips the active flag of that
      one assignment. */
  function ToggleAssignment(st: Store, projectId: string, teamId: string, modifiedBy: Option<string>, now: int): (r: Response)
    ensures r.status == 404 <==> AssignmentIndex(st.assignments, projectId, teamId).None?
    ensures r.status != 200 ==> r.store == st
    ensures r.status == 200 ==>
      AssignmentIndex(st.assignments, projectId, teamId).Some? && |r.store.assignments| == |st.assignments| &&
      var j := AssignmentIndex(st.assignments, projectId, teamId).value;
      r.store.assignments[j].isActive == !st.assignments[j].isActive &&
      r.store.assignments[j].projectId == projectId && r.store.assignments[j].teamId == teamId &&
      (forall k :: 0 <= k < |st.assignments| && k != j ==> r.store.assignments[k] == st.assignments[k]) &&
      r.store == st.(assignments := r.store.assignments)
  {
    match AssignmentIndex(st.assignments, projectId, teamId)
    case None => Response(st, 404)
    case Some(j) =>
      var a := st.assignments[j].(isActive := !st.assignments[j].isActive, modifiedDate := Some(now), modifiedBy := modifiedBy);
      if !ValidAssignment(a) then Response(st, 500)
      else Response(st.(assignments := st.assignments[j := a]), 200)
  }

  /** `DELETE /:projectId/team/:teamId`: deletes the assignment and nothing
      else; the project keeps its status. */
  function RemoveTeam(st: Store, projectId: string, teamId: string): (r: Response)
    ensures r.status == 404 <==> AssignmentIndex(st.assignments, projectId, teamId).None?
    ensures r.status != 200 ==> r.store == st
    ensures r.status == 200 ==>
      AssignmentIndex(st.assignments, projectId, teamId).Some? &&
      var j := AssignmentIndex(st.assignments, projectId, teamId).value;
      r.store == st.(assignments := st.assignments[..j] + st.assignments[j + 1..])
  {
    match AssignmentIndex(st.assignments, projectId, teamId)
    case None => Response(st, 404)
    case Some(j) => Response(st.(assignments := st.assignments[..j] + st.assignments[j + 1..]), 200)
  }

  /** Adding the first team and removing it again restores the project's
      teams but not its status: a promoted project stays at status 2. */
  lemma AddThenRemoveKeepsStatus(st: Store, projectId: string, teamId: string, modifiedBy: Option<string>, now: int)
    requires AddTeam(st, projectId, Some(teamId), modifiedBy, now).response.status == 201
    ensures var added := AddTeam(st, projectId, Some(teamId), modifiedBy, now);
      var removed := RemoveTeam(added.response.store, projectId, teamId);
      var i := ProjectIndex(st.projects, projectId).value;
      removed.status == 200 && removed.store.assignments == st.assignments &&
      removed.store.projects == added.response.store.projects &&
      (added.statusUpdated ==> removed.store.projects[i].statusId == Assigned)
  {
    var added := AddTeam(st, projectId, Some(teamId), modifiedBy, now);
    var n := |st.assignments|;
    var ext := added.response.store.assignments;
    assert AssignmentIndex(st.assignments, projectId, teamId).None?;
    assert forall j :: 0 <= j < n ==> ext[j] == st.assignments[j];
    assert |ext| == n + 1 && ext[n].projectId == projectId && ext[n].teamId == teamId;
    var k := AssignmentIndex(ext, projectId, teamId);
    assert k.Some?;
    assert k.value == n;
    assert added.response.store.assignments[..n] == st.assignments;
  }

  /** The teams assigned to a project, active or not. */
  function AssignedTeams(st: Store, projectId: string): set<string> {
    set j | 0 <= j < |st.assignments| && st.assignments[j].projectId == projectId :: st.assignments[j].teamId
  }

  /** The active memberships of the teams assigned to a project. */
  function ActiveMemberships(st: Store, projectId: string): seq<Membership> {
    Filter(st.members, (m: Membership) => m.teamId in AssignedTeams(st, projectId) && m.isMemberActive)
  }

  /** The project's members: the users of those memberships, each once. */
  function ProjectMembers(st: Store, projectId: string): (r: seq<string>)
    ensures NoDuplicates(r)
    ensures |r| <= |st.members|
  {
    var active := ActiveMemberships(st, projectId);
    Dedup(seq(|active|, k requires 0 <= k < |active| => active[k].memberId))
  }

  /** A user is listed exactly when they are an active member of some team
      assigned to the project. */
  lemma ProjectMembersExact(st: Store, projectId: string, u: string)
    ensures u in ProjectMembers(st, projectId) <==>
      exists i, j :: 0 <= i < |st.members| && 0 <= j < |st.assignments| &&
        st.members[i].memberId == u && st.members[i].isMemberActive &&
        st.assignments[j].projectId == projectId && st.assignments[j].teamId == st.members[i].teamId
  {
    if u in ProjectMembers(st, projectId) {
      var i, j := ListedMemberWitness(st, projectId, u);
    }
    if exists i, j :: 0 <= i < |st.members| && 0 <= j < |st.assignments| &&
        st.members[i].memberId == u && st.members[i].isMemberActive &&
        st.assignments[j].projectId == projectId && st.assignments[j].teamId == st.members[i].teamId {
      var i, j :| 0 <= i < |st.members| && 0 <= j < |st.assignments| &&
        st.members[i].memberId == u && st.members[i].isMemberActive &&
        st.assignments[j].projectId == projectId && st.assignments[j].teamId == st.members[i].teamId;
      ActiveMemberListed(st, projectId, i, j);
    }
  }

  /** A listed user comes from an active membership of an assigned team. */
  lemma ListedMemberWitness(st: Store, projectId: string, u: string) returns (i: nat, j: nat)
    requires u in ProjectMembers(st, projectId)
    ensures i < |st.members| && j < |st.assignments|
    ensures st.members[i].memberId == u && st.members[i].isMemberActive
    ensures st.assignments[j].projectId == projectId && st.assignments[j].teamId == st.members[i].teamId
  {
    var active := ActiveMemberships(st, projectId);
    var ids := seq(|active|, k requires 0 <= k < |active| => active[k].memberId);
    assert u in ids;
    var k :| 0 <= k < |ids| && ids[k] == u;
    var m := active[k];
    assert m in active;
    i :| 0 <= i < |st.members| && st.members[i] == m;
    j :| 0 <= j < |st.assignments| && st.assignments[j].projectId == projectId && st.assignments[j].teamId == m.teamId;
  }

  /** An active member of an assigned team is listed. */
  lemma ActiveMemberListed(st: Store, projectId: string, i: nat, j: nat)
    requires i < |st.members| && j < |st.assignments| && st.members[i].isMemberActive
    requires st.assignments[j].projectId == projectId && st.assignments[j].teamId == st.members[i].teamId
    ensures st.members[i].memberId in ProjectMembers(st, projectId)
  {
    var active := ActiveMemberships(st, projectId);
    var ids := seq(|active|, k requires 0 <= k < |active| => active[k].memberId);
    var m := st.members[i];
    assert m.teamId in AssignedTeams(st, projectId);
    assert m in active;
    var k :| 0 <= k < |active| && active[k] == m;
    assert ids[k] == m.memberId;
  }
}
