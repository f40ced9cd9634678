/** Task details (models/TaskDetails.js, routes/taskDetailsRoutes.js): the
    schema rules a saved task must meet, the limit gate in front of
    creation, and the create, status, assign, field-patch, delete and
    bulk-delete handlers.  Every handler that changes a task first appends
    a history row with the task as it was; the activity log and the socket
    outbox are part of the store. */
module Tasks {
  import opened Common
  import PremiumLimits
  import Activity
  import Gateway

  const UserStory: string := "User Story"

  /** The schema's `Type` enum. */
  const TaskTypes: set<string> := {"Task", "Bug", "User Story", "Feature", "Improvement", "Documentation", "Maintenance"}

  /** The schema's `Priority` enum. */
  const Priorities: set<string> := {"High", "Medium", "Low"}

  const NameMax: nat := 50
  const DescriptionMax: nat := 100

  /** A task document.  Dates are milliseconds; an absent string or date
      is `None`. */
  datatype Task = Task(
    taskId: string,
    parentId: Option<string>,
    name: Option<string>,
    description: Option<string>,
    status: int,
    typ: Option<string>,
    priority: Option<string>,
    assignee: Option<string>,
    assignedTo: Option<string>,
    projectId: Option<string>,
    isActive: bool,
    createdDate: int,
    assignedDate: Option<int>,
    modifiedDate: Option<int>,
    modifiedBy: Option<string>,
    createdBy: Option<string>)

  predicate IsUserStory(t: Task) { t.typ == Some(UserStory) }

  /** The schema paths of a task document that carry a validator. */
  datatype SchemaPath = ParentID | Name | Description | Type | Priority | ProjectID_FK | CreatedBy

  const AllPaths: set<SchemaPath> := {ParentID, Name, Description, Type, Priority, ProjectID_FK, CreatedBy}

  /** Whether the validator of path `p` rejects `t` (Mongoose's `required`
      rejects a missing value and an empty string; `enum` and `maxlength`
      pass a missing value). */
  predicate Rejects(t: Task, p: SchemaPath) {
    match p
    case ParentID => !Truthy(t.parentId) && !IsUserStory(t)
    case Name => !Truthy(t.name) || |t.name.value| > NameMax
    case Description => t.description.Some? && |t.description.value| > DescriptionMax
    case Type => t.typ.None? || t.typ.value !in TaskTypes
    case Priority => if t.priority.Some? then t.priority.value !in Priorities else !IsUserStory(t)
    case ProjectID_FK => !Truthy(t.projectId)
    case CreatedBy => !Truthy(t.createdBy)
  }

  /** The schema paths whose validator rejects `t`. */
  function Errors(t: Task): (e: set<SchemaPath>)
    ensures ParentID in e <==> !Truthy(t.parentId) && !IsUserStory(t)
    ensures Name !in e <==> Truthy(t.name) && |t.name.value| <= NameMax
    ensures Description in e <==> t.description.Some? && |t.description.value| > DescriptionMax
    ensures Type !in e <==> t.typ.Some? && t.typ.value in TaskTypes
    ensures Priority in e ==> !IsUserStory(t) || t.priority.Some?
    ensures ProjectID_FK in e <==> !Truthy(t.projectId)
    ensures CreatedBy in e <==> !Truthy(t.createdBy)
  {
    set p | p in AllPaths && Rejects(t, p)
  }

  /** A document `save()` accepts. */
  predicate Valid(t: Task) {
    Truthy(t.name) && |t.name.value| <= NameMax &&
    (t.description.None? || |t.description.value| <= DescriptionMax) &&
    t.typ.Some? && t.typ.value in TaskTypes &&
    (Truthy(t.parentId) || IsUserStory(t)) &&
    (if t.priority.Some? then t.priority.value in Priorities else IsUserStory(t)) &&
    Truthy(t.projectId) &&
    Truthy(t.createdBy)
  }

  /** The per-path validators and the document check agree: a task saves
      exactly when no path reports an error. */
  lemma ValidIffNoErrors(t: Task)
    ensures Valid(t) <==> Errors(t) == {}
  {
    if Errors(t) == {} {
      assert Name !in Errors(t) && Type !in Errors(t) && Priority !in Errors(t);
    }
  }

  // ---------------------------------------------------------------------
  // Creation
  // ---------------------------------------------------------------------

  /** The `taskDetail` body of a create request; `organizationId` is the
      body's `OrganizationID`, read only to pick the dashboard to refresh. */
  datatype Draft = Draft(
    parentId: Option<string>,
    name: Option<string>,
    description: Option<string>,
    typ: Option<string>,
    priority: Option<string>,
    assignee: Option<string>,
    assignedTo: Option<string>,
    assignedDate: Option<int>,
    projectId: Option<string>,
    createdBy: Option<string>,
    organizationId: Option<string>)

  /** The counter `checkTaskTypeLimit` guards: stories for 'User Story',
      tasks for any other non-empty type, none without a type. */
  function GuardedKind(d: Draft): Option<PremiumLimits.Kind> {
    if d.typ == Some(UserStory) then Some(PremiumLimits.UserStoryKind)
    else if Truthy(d.typ) then Some(PremiumLimits.TaskKind)
    else None
  }

  /** `checkTaskTypeLimit`: the story check reads `CreatedBy`, the task
      check reads `Assignee`, each falling back to the authenticated user. */
  function CheckTaskTypeLimit(db: PremiumLimits.Db, d: Draft, authUser: Option<string>, now: int): (r: PremiumLimits.Outcome)
    ensures d.typ == Some(UserStory) ==>
      r == PremiumLimits.CheckLimit(db, PremiumLimits.UserStoryKind, PremiumLimits.FirstTruthy([d.createdBy, authUser]), now)
    ensures d.typ != Some(UserStory) && Truthy(d.typ) ==>
      r == PremiumLimits.CheckLimit(db, PremiumLimits.TaskKind, PremiumLimits.FirstTruthy([d.assignee, authUser]), now)
    ensures !Truthy(d.typ) ==> r == PremiumLimits.Next
  {
    match GuardedKind(d)
    case None => PremiumLimits.Next
    case Some(k) =>
      var who := if k == PremiumLimits.UserStoryKind then d.createdBy else d.assignee;
      PremiumLimits.CheckLimit(db, k, PremiumLimits.FirstTruthy([who, authUser]), now)
  }

  /** The body `incrementUsage` sees after a create: only `taskDetail` is
      set, with its `CreatedBy` already overwritten by the handler. */
  function UsageBody(d: Draft, createdBy: Option<string>): PremiumLimits.Body {
    PremiumLimits.Body(None, None, d.typ, createdBy, None, None)
  }

  /** The counter the gate checks is the counter `incrementUsage` raises
      after the create, for every request body. */
  lemma GateMatchesIncrement(d: Draft, createdBy: Option<string>)
    ensures GuardedKind(d) == PremiumLimits.Classify(UsageBody(d, createdBy))
  {
  }

  /** The task the handler builds: creation time, Status 2 with the
      assignee and assigned date blanked for a user story and Status 1
      otherwise, active, Priority defaulting to Medium, nothing modified,
      and `createdBy` as the creator. */
  function Build(d: Draft, id: string, now: int, createdBy: Option<string>): (t: Task)
    ensures t.taskId == id && t.createdDate == now && t.isActive
    ensures t.status == (if d.typ == Some(UserStory) then 2 else 1)
    ensures d.typ == Some(UserStory) ==> t.assignee == Some("") && t.assignedDate.None?
    ensures d.typ != Some(UserStory) ==> t.assignee == d.assignee && t.assignedDate == d.assignedDate
    ensures t.priority.Some? && (d.priority.Some? ==> t.priority == d.priority)
    ensures t.modifiedDate.None? && t.modifiedBy.None? && t.createdBy == createdBy
    ensures t.name == d.name && t.description == d.description && t.typ == d.typ && t.parentId == d.parentId &&
            t.assignedTo == d.assignedTo && t.projectId == d.projectId
  {
    var story := d.typ == Some(UserStory);
    Task(id, d.parentId, d.name, d.description, if story then 2 else 1, d.typ,
         if d.priority.Some? then d.priority else Some("Medium"),
         if story then Some("") else d.assignee, d.assignedTo, d.projectId, true, now,
         if story then None else d.assignedDate, None, None, createdBy)
  }

  /** The creator the handler stores: `CreatedBy = Assignee`, read after a
      user story's assignee has been blanked. */
  function CreatorAsWritten(d: Draft): Option<string> {
    if d.typ == Some(UserStory) then Some("") else d.assignee
  }

  /** The creator evidently intended: the assignee sent by the client. */
  function CreatorIntended(d: Draft): Option<string> { d.assignee }

  datatype History = History(before: Task, at: int)

  /** The task collection with its history, the activity log, the limit
      counters and the socket server; `projectOrg` maps a project id to
      the organization id its document carries. */
  datatype Store = Store(
    tasks: seq<Task>,
    history: seq<History>,
    log: seq<Activity.Record>,
    db: PremiumLimits.Db,
    io: Gateway.Server,
    projectOrg: map<string, string>)

  /** A possibly absent id as a room key: JavaScript's template string
      writes an absent one as "undefined". */
  function RoomKey(id: Option<string>): string {
    if id.Some? then id.value else "undefined"
  }

  /** `(await Project.findOne({ ProjectID: p }))?.OrganizationID`, as the
      dashboard's room key: "undefined" when no project is named or found. */
  function ProjectOrg(st: Store, p: Option<string>): string {
    if p.Some? && p.value in st.projectOrg then st.projectOrg[p.value] else "undefined"
  }

  /** The dashboard a create refreshes: the body's `OrganizationID`, else
      the organization of the task's project. */
  function CreateOrg(st: Store, d: Draft): string {
    if Truthy(d.organizationId) then d.organizationId.value else ProjectOrg(st, d.projectId)
  }

  datatype Response = Response(store: Store, status: nat)

  /** `findOne({TaskID})`: the first task with that id. */
  function Find(ts: seq<Task>, id: string): (r: Option<nat>)
    ensures r.Some? ==> r.value < |ts| && ts[r.value].taskId == id
    ensures r.Some? ==> forall j :: 0 <= j < r.value ==> ts[j].taskId != id
    ensures r.None? <==> forall j :: 0 <= j < |ts| ==> ts[j].taskId != id
  {
    if ts == [] then None
    else if ts[0].taskId == id then Some(0)
    else match Find(ts[1..], id)
      case None => None
      case Some(k) => Some(k + 1)
  }

  function CreateActivity(typ: Option<string>): string {
    if typ == Some(UserStory) then "user_story_create" else "task_create"
  }

  function UpdateActivity(t: Task): string {
    if IsUserStory(t) then "user_story_update" else "task_update"
  }

  function DeleteActivity(t: Task): string {
    if IsUserStory(t) then "user_story_delete" else "task_delete"
  }

  /** The activity metadata the handlers attach: the task id and, when
      known, the project id. */
  function TaskMeta(id: string, project: Option<string>): (m: map<string, string>)
    ensures "taskId" in m && m["taskId"] == id
  {
    map["taskId" := id] + (if project.Some? then map["projectId" := project.value] else map[])
  }

  function Log(log: seq<Activity.Record>, user: Option<string>, typ: string, status: string,
               details: string, meta: map<string, string>, now: int): seq<Activity.Record>
  {
    Activity.LogActivity(log, user, typ, status, details, meta, None, now).log
  }

  /** `POST /` with the creator chosen by `creator`: the gate, then a save
      that may fail validation (500, with an error activity), then the
      usage counter, the activity, the kanban event and the dashboard
      refresh (201). */
  function CreateWith(st: Store, d: Draft, authUser: Option<string>, id: string, now: int, creator: Option<string>): (r: Response)
    ensures r.status == 201 || r.store.tasks == st.tasks
    ensures r.status == 201 <==>
      CheckTaskTypeLimit(st.db, d, authUser, now) == PremiumLimits.Next && Valid(Build(d, id, now, creator)) && Find(st.tasks, id).None?
    ensures r.status == 201 ==>
      Gateway.Sent(st.io, r.store.io, [Gateway.Notice(Gateway.ProjectRoom(RoomKey(d.projectId)), "kanban.task.created"),
                                       Gateway.DashboardNotice(CreateOrg(st, d))])
    ensures r.status != 201 ==> r.store.io == st.io
  {
    match CheckTaskTypeLimit(st.db, d, authUser, now)
    case Reject(code) => Response(st, code)
    case LimitReached(_, _, _) => Response(st, 403)
    case Next =>
      var t := Build(d, id, now, creator);
      if !Valid(t) || Find(st.tasks, id).Some? then
        Response(st.(log := Log(st.log, creator, CreateActivity(d.typ), "error", "Failed to create task", map[], now)), 500)
      else
        var db := PremiumLimits.IncrementUsage(st.db, UsageBody(d, creator), authUser);
        var log := Log(st.log, creator, CreateActivity(d.typ), "success", "Created new task", TaskMeta(id, t.projectId), now);
        var io := Gateway.EmitToProject(st.io, t.projectId.value, "kanban.task.created", Gateway.NoData);
        var io' := Gateway.EmitDashboardMetrics(io, CreateOrg(st, d));
        Response(st.(tasks := st.tasks + [t], log := log, db := db, io := io'), 201)
  }

  /** The create handler as written. */
  function Create(st: Store, d: Draft, authUser: Option<string>, id: string, now: int): Response {
    CreateWith(st, d, authUser, id, now, CreatorAsWritten(d))
  }

  /** The create handler with the creator taken before the assignee is
      blanked. */
  function CreateIntended(st: Store, d: Draft, authUser: Option<string>, id: string, now: int): Response {
    CreateWith(st, d, authUser, id, now, CreatorIntended(d))
  }

  /** A successful create stores exactly one new, valid task at the end,
      with the defaults of its type, records a creation activity for it,
      announces it to its project room and refreshes the dashboard of the
      body's organization, else the project's. */
  lemma CreateEffect(st: Store, d: Draft, authUser: Option<string>, id: string, now: int, creator: Option<string>)
    requires CreateWith(st, d, authUser, id, now, creator).status == 201
    ensures var r := CreateWith(st, d, authUser, id, now, creator).store;
      |r.tasks| == |st.tasks| + 1 && r.tasks[..|st.tasks|] == st.tasks &&
      var t := r.tasks[|st.tasks|];
      Valid(t) && t.taskId == id && t.isActive && t.createdBy == creator && Truthy(creator) &&
      t.status == (if d.typ == Some(UserStory) then 2 else 1) &&
      r.history == st.history &&
      |r.log| == |st.log| + 1 && r.log[|st.log|].typ == CreateActivity(d.typ) &&
      Activity.OfTask(r.log[|st.log|], id) &&
      Gateway.Sent(st.io, r.io, [Gateway.Notice(Gateway.ProjectRoom(t.projectId.value), "kanban.task.created"),
                                 Gateway.DashboardNotice(CreateOrg(st, d))])
  {
    var t := Build(d, id, now, creator);
    assert Valid(t);
    assert t.taskId == id;
  }

  /** As written, no user story can ever be created: its `CreatedBy` is the
      blanked assignee, which `required` rejects, so the request ends in an
      error and stores nothing. */
  lemma UserStoryCreateFails(st: Store, d: Draft, authUser: Option<string>, id: string, now: int)
    requires d.typ == Some(UserStory)
    ensures Create(st, d, authUser, id, now).status != 201
    ensures Create(st, d, authUser, id, now).store.tasks == st.tasks
  {
    assert !Valid(Build(d, id, now, CreatorAsWritten(d)));
  }

  /** With the creator taken first, a user story that passes the gate and
      carries a name, a project and a creator is stored with Status 2, no
      assignee and its creator. */
  lemma UserStoryCreateIntended(st: Store, d: Draft, authUser: Option<string>, id: string, now: int)
    requires d.typ == Some(UserStory)
    requires CheckTaskTypeLimit(st.db, d, authUser, now) == PremiumLimits.Next
    requires Truthy(d.name) && |d.name.value| <= NameMax
    requires d.description.None? || |d.description.value| <= DescriptionMax
    requires d.priority.None? || d.priority.value in Priorities
    requires Truthy(d.projectId) && Truthy(d.assignee) && Find(st.tasks, id).None?
    ensures var r := CreateIntended(st, d, authUser, id, now);
      r.status == 201 && |r.store.tasks| == |st.tasks| + 1 &&
      var t := r.store.tasks[|st.tasks|];
      t.status == 2 && t.assignee == Some("") && t.createdBy == d.assignee
  {
    var t := Build(d, id, now, CreatorIntended(d));
    assert Valid(t);
  }

  /** For every other type the two creators coincide. */
  lemma CreateAgreesOffUserStory(st: Store, d: Draft, authUser: Option<string>, id: string, now: int)
    requires d.typ != Some(UserStory)
    ensures Create(st, d, authUser, id, now) == CreateIntended(st, d, authUser, id, now)
  {
  }

  // ---------------------------------------------------------------------
  // Status patch
  // ---------------------------------------------------------------------

  /** `b` is `a` with at most Status, ModifiedDate and ModifiedBy changed. */
  predicate SameButStatus(a: Task, b: Task) {
    a.(status := b.status, modifiedDate := b.modifiedDate, modifiedBy := b.modifiedBy) == b
  }

  /** `PATCH /:taskId/status`: 404 for an unknown task; otherwise a
      history row, then only Status, ModifiedDate and ModifiedBy change. */
  function PatchStatus(st: Store, id: string, status: int, modifiedBy: Option<string>, now: int): (r: Response)
    ensures r.status == 404 <==> Find(st.tasks, id).None?
    ensures r.status == 404 ==> r.store == st
    ensures r.status == 200 ==>
      var t := st.tasks[Find(st.tasks, id).value];
      Gateway.Sent(st.io, r.store.io, [Gateway.DashboardNotice(ProjectOrg(st, t.projectId)),
                                       Gateway.Notice(Gateway.ProjectRoom(RoomKey(t.projectId)), "kanban.task.status.updated"),
                                       Gateway.Notice(Gateway.TaskRoom(id), "task.updated")])
    ensures r.status != 200 ==> r.store.io == st.io
  {
    match Find(st.tasks, id)
    case None => Response(st, 404)
    case Some(i) =>
      var t := st.tasks[i];
      var t' := t.(status := status, modifiedDate := Some(now), modifiedBy := modifiedBy);
      var history := st.history + [History(t, now)];
      if !Valid(t') then
        Response(st.(history := history, log := Log(st.log, t.createdBy, UpdateActivity(t), "error", "Failed to update task status", TaskMeta(id, None), now)), 500)
      else
        var log := Log(st.log, t.createdBy, UpdateActivity(t), "success", "Updated task status", TaskMeta(t.taskId, t.projectId), now);
        var io := Gateway.EmitDashboardMetrics(st.io, ProjectOrg(st, t.projectId));
        var io' := Gateway.EmitToProject(io, t.projectId.value, "kanban.task.status.updated", Gateway.NoData);
        var io'' := Gateway.EmitToTask(io', t.taskId, "task.updated", Gateway.NoData);
        Response(st.(tasks := st.tasks[i := t'], history := history, log := log, io := io''), 200)
  }

  /** A found task: the history row holds it as it was; a valid task takes
      the new status and stamps, every other field and every other task
      unchanged, and the organization's dashboard, the project room and
      the task room hear of it, in that order; an invalid one is not
      saved and nobody hears of it. */
  lemma PatchStatusEffect(st: Store, id: string, status: int, modifiedBy: Option<string>, now: int)
    requires Find(st.tasks, id).Some?
    ensures var i := Find(st.tasks, id).value;
      var r := PatchStatus(st, id, status, modifiedBy, now);
      r.store.history == st.history + [History(st.tasks[i], now)] &&
      (Valid(st.tasks[i]) ==>
        r.status == 200 && |r.store.tasks| == |st.tasks| &&
        (forall j :: 0 <= j < |st.tasks| && j != i ==> r.store.tasks[j] == st.tasks[j]) &&
        SameButStatus(st.tasks[i], r.store.tasks[i]) &&
        r.store.tasks[i].status == status && r.store.tasks[i].modifiedDate == Some(now) &&
        r.store.tasks[i].modifiedBy == modifiedBy &&
        Gateway.Sent(st.io, r.store.io, [Gateway.DashboardNotice(ProjectOrg(st, st.tasks[i].projectId)),
                                         Gateway.Notice(Gateway.ProjectRoom(st.tasks[i].projectId.value), "kanban.task.status.updated"),
                                         Gateway.Notice(Gateway.TaskRoom(id), "task.updated")])) &&
      (!Valid(st.tasks[i]) ==> r.status == 500 && r.store.tasks == st.tasks && r.store.io == st.io)
  {
  }

  // ---------------------------------------------------------------------
  // Assignment
  // ---------------------------------------------------------------------

  /** The status after (un)assignment: 1 becomes 2 on assign, 2 becomes 1
      on unassign, and every other status stays. */
  function AssignStatus(status: int, on: bool): (s: int)
    ensures on && status == 1 ==> s == 2
    ensures !on && status == 2 ==> s == 1
    ensures !(on && status == 1) && !(!on && status == 2) ==> s == status
  {
    if on && status == 1 then 2 else if !on && status == 2 then 1 else status
  }

  /** The task after `AssignedTo = assignedTo`: the date is the given one or
      `now` when assigned and null when not. */
  function Reassigned(t: Task, assignedTo: Option<string>, assignedDate: Option<int>, now: int): (u: Task)
    ensures u.assignedTo == assignedTo
    ensures u.assignedDate.None? <==> !Truthy(assignedTo)
    ensures Truthy(assignedTo) ==> u.assignedDate == (if assignedDate.Some? then assignedDate else Some(now))
    ensures u.status == AssignStatus(t.status, Truthy(assignedTo))
    ensures u.(assignedTo := t.assignedTo, assignedDate := t.assignedDate, status := t.status) == t
  {
    var on := Truthy(assignedTo);
    t.(assignedTo := assignedTo,
       assignedDate := if !on then None else if assignedDate.Some? then assignedDate else Some(now),
       status := AssignStatus(t.status, on))
  }

  /** Assigning and then unassigning a task that was unassigned at status 1
      or 2 restores its status and leaves it unassigned. */
  lemma AssignThenUnassign(t: Task, who: string, date: Option<int>, now: int)
    requires who != "" && (t.status == 1 || t.status == 2)
    ensures var u := Reassigned(Reassigned(t, Some(who), date, now), None, None, now);
      u.status == 1 && u.assignedTo.None? && u.assignedDate.None?
  {
  }

  /** `PATCH /:taskId/assign` against the activity enum `types`: history,
      the reassigned task is saved, then the activity is logged; a logging
      failure turns the response into 500 after the save and skips the
      events.  An assignment to a known user logs a second activity. */
  function AssignIn(types: set<string>, st: Store, id: string, assignedTo: Option<string>, assignedDate: Option<int>, now: int): (r: Response)
    requires "error" in types
    ensures r.status == 404 <==> Find(st.tasks, id).None?
    ensures r.status == 404 ==> r.store == st
    ensures r.status == 200 ==>
      var i := Find(st.tasks, id).value;
      var t := st.tasks[i];
      r.store.tasks == st.tasks[i := Reassigned(t, assignedTo, assignedDate, now)] &&
      Gateway.Sent(st.io, r.store.io, [Gateway.Notice(Gateway.TaskRoom(id), "task.updated"),
                                       Gateway.Notice(Gateway.ProjectRoom(RoomKey(t.projectId)), "kanban.task.assigned"),
                                       Gateway.DashboardNotice(ProjectOrg(st, t.projectId))])
    ensures r.status != 200 ==> r.store.io == st.io
  {
    match Find(st.tasks, id)
    case None => Response(st, 404)
    case Some(i) =>
      var t := st.tasks[i];
      var t' := Reassigned(t, assignedTo, assignedDate, now);
      var history := st.history + [History(t, now)];
      var errorLog := Activity.LogActivityIn(types, st.log, t.createdBy, "task_assign", "error", "Failed to assign task", TaskMeta(id, None), None, now);
      if !Valid(t') then
        Response(st.(history := history, log := errorLog.log), 500)
      else
        var tasks := st.tasks[i := t'];
        var logged := AssignLog(types, st, t, id, assignedTo, now);
        if !logged.ok then
          Response(st.(tasks := tasks, history := history, log := logged.log), 500)
        else
          var n1 := Gateway.Notice(Gateway.TaskRoom(id), "task.updated");
          var n2 := Gateway.Notice(Gateway.ProjectRoom(RoomKey(t.projectId)), "kanban.task.assigned");
          var io := Gateway.EmitToTask(st.io, t.taskId, "task.updated", Gateway.NoData);
          var io' := Gateway.EmitToProject(io, t.projectId.value, "kanban.task.assigned", Gateway.NoData);
          var io'' := Gateway.EmitDashboardMetrics(io', ProjectOrg(st, t.projectId));
          Gateway.SentThen(st.io, io, io', [n1], [n2]);
          Gateway.SentThen(st.io, io', io'', [n1, n2], [Gateway.DashboardNotice(ProjectOrg(st, t.projectId))]);
          Response(st.(tasks := tasks, history := history, log := logged.log, io := io''), 200)
  }

  /** The activities the assign handler logs after saving, and whether it
      goes on to answer 200. */
  function AssignLog(types: set<string>, st: Store, t: Task, id: string, assignedTo: Option<string>, now: int): Activity.Logged
    requires "error" in types
  {
    var on := Truthy(assignedTo);
    var meta := TaskMeta(t.taskId, t.projectId);
    var l := Activity.LogActivityIn(types, st.log, t.createdBy, if on then "task_assign" else "task_unassign", "success",
                                    if on then "Task assigned to user" else "Task unassigned", meta, None, now);
    if !l.ok then
      Activity.Logged(Activity.LogActivityIn(types, l.log, t.createdBy, "task_assign", "error", "Failed to assign task", TaskMeta(id, None), None, now).log, false)
    else if on && assignedTo.value in st.db.users then
      Activity.LogActivityIn(types, l.log, t.createdBy, "task_assign", "success", "Task assigned", meta, None, now)
    else l
  }

  /** The assign handler as written. */
  function Assign(st: Store, id: string, assignedTo: Option<string>, assignedDate: Option<int>, now: int): Response {
    AssignIn(Activity.ActivityTypes, st, id, assignedTo, assignedDate, now)
  }

  /** The assign handler with `task_unassign` in the enum. */
  function AssignIntended(st: Store, id: string, assignedTo: Option<string>, assignedDate: Option<int>, now: int): Response {
    AssignIn(Activity.IntendedActivityTypes, st, id, assignedTo, assignedDate, now)
  }

  /** Whatever the enum, a found valid task is saved with the new
      assignment, date and status before the activity is logged, and no
      other task changes. */
  lemma AssignSaves(types: set<string>, st: Store, id: string, assignedTo: Option<string>, assignedDate: Option<int>, now: int)
    requires "error" in types
    requires Find(st.tasks, id).Some? && Valid(st.tasks[Find(st.tasks, id).value])
    ensures var i := Find(st.tasks, id).value;
      var r := AssignIn(types, st, id, assignedTo, assignedDate, now);
      r.store.tasks == st.tasks[i := Reassigned(st.tasks[i], assignedTo, assignedDate, now)] &&
      r.store.history == st.history + [History(st.tasks[i], now)]
  {
    var i := Find(st.tasks, id).value;
    assert Valid(Reassigned(st.tasks[i], assignedTo, assignedDate, now));
  }

  /** As written, unassigning a task answers 500 although the task was
      saved unassigned, and no room hears of it. */
  lemma UnassignFailsAfterSave(st: Store, id: string, now: int)
    requires Find(st.tasks, id).Some? && Valid(st.tasks[Find(st.tasks, id).value])
    ensures var i := Find(st.tasks, id).value;
      var r := Assign(st, id, None, None, now);
      r.status == 500 && r.store.tasks[i].assignedTo.None? && r.store.io == st.io
  {
    var i := Find(st.tasks, id).value;
    assert Valid(Reassigned(st.tasks[i], None, None, now));
    Activity.UnlistedNames();
  }

  /** With `task_unassign` in the enum, the same request succeeds and the
      task room, the project room and the organization's dashboard are
      told, in that order. */
  lemma UnassignIntendedSucceeds(st: Store, id: string, now: int)
    requires Find(st.tasks, id).Some? && Valid(st.tasks[Find(st.tasks, id).value])
    ensures var i := Find(st.tasks, id).value;
      var r := AssignIntended(st, id, None, None, now);
      r.status == 200 && r.store.tasks[i].assignedTo.None? &&
      Gateway.Sent(st.io, r.store.io, [Gateway.Notice(Gateway.TaskRoom(id), "task.updated"),
                                       Gateway.Notice(Gateway.ProjectRoom(st.tasks[i].projectId.value), "kanban.task.assigned"),
                                       Gateway.DashboardNotice(ProjectOrg(st, st.tasks[i].projectId))])
  {
    var i := Find(st.tasks, id).value;
    assert Valid(Reassigned(st.tasks[i], None, None, now));
  }

  /** Assigning to a non-empty user succeeds in both versions. */
  lemma AssignSucceeds(st: Store, id: string, who: string, date: Option<int>, now: int)
    requires who != ""
    requires Find(st.tasks, id).Some? && Valid(st.tasks[Find(st.tasks, id).value])
    ensures Assign(st, id, Some(who), date, now).status == 200
    ensures Assign(st, id, Some(who), date, now) == AssignIntended(st, id, Some(who), date, now)
  {
    assert "task_assign" in Activity.ActivityTypes;
    AssignListedAgrees(Activity.ActivityTypes, Activity.IntendedActivityTypes, st, id, who, date, now);
  }

  /** Under any two enums that list the assignment activity, an assignment
      to a non-empty user succeeds the same way. */
  lemma AssignListedAgrees(types: set<string>, types': set<string>, st: Store, id: string, who: string, date: Option<int>, now: int)
    requires "error" in types && "task_assign" in types && "error" in types' && "task_assign" in types'
    requires who != ""
    requires Find(st.tasks, id).Some? && Valid(st.tasks[Find(st.tasks, id).value])
    ensures AssignIn(types, st, id, Some(who), date, now).status == 200
    ensures AssignIn(types, st, id, Some(who), date, now) == AssignIn(types', st, id, Some(who), date, now)
  {
    var i := Find(st.tasks, id).value;
    var t := st.tasks[i];
    var meta := TaskMeta(t.taskId, t.projectId);
    assert Valid(Reassigned(t, Some(who), date, now));
    Activity.ListedLogsAgree(types, types', st.log, t.createdBy, "task_assign", "success", "Task assigned to user", meta, None, now);
    var l := Activity.LogActivityIn(types, st.log, t.createdBy, "task_assign", "success", "Task assigned to user", meta, None, now);
    Activity.ListedLogsAgree(types, types', l.log, t.createdBy, "task_assign", "success", "Task assigned", meta, None, now);
  }

  // ---------------------------------------------------------------------
  // Field patch, delete, bulk delete
  // ---------------------------------------------------------------------

  /** The fields a `PATCH /:taskId` body may carry; `None` is absent. */
  datatype Patch = Patch(
    name: Option<string>,
    description: Option<string>,
    typ: Option<string>,
    priority: Option<string>,
    parentId: Option<string>,
    isActive: Option<bool>)

  /** Each present field replaces the stored one. */
  function ApplyPatch(t: Task, p: Patch): (u: Task)
    ensures u.name == (if p.name.Some? then p.name else t.name)
    ensures u.description == (if p.description.Some? then p.description else t.description)
    ensures u.typ == (if p.typ.Some? then p.typ else t.typ)
    ensures u.priority == (if p.priority.Some? then p.priority else t.priority)
    ensures u.parentId == (if p.parentId.Some? then p.parentId else t.parentId)
    ensures u.isActive == (if p.isActive.Some? then p.isActive.value else t.isActive)
    ensures u.(name := t.name, description := t.description, typ := t.typ, priority := t.priority,
               parentId := t.parentId, isActive := t.isActive) == t
  {
    t.(name := if p.name.Some? then p.name else t.name,
       description := if p.description.Some? then p.description else t.description,
       typ := if p.typ.Some? then p.typ else t.typ,
       priority := if p.priority.Some? then p.priority else t.priority,
       parentId := if p.parentId.Some? then p.parentId else t.parentId,
       isActive := if p.isActive.Some? then p.isActive.value else t.isActive)
  }

  /** An empty patch changes nothing, and applying a patch twice is the
      same as applying it once. */
  lemma ApplyPatchIdempotent(t: Task, p: Patch)
    ensures ApplyPatch(t, Patch(None, None, None, None, None, None)) == t
    ensures ApplyPatch(ApplyPatch(t, p), p) == ApplyPatch(t, p)
  {
  }

  /** `PATCH /:taskId`: 404 for an unknown task; otherwise a history row,
      then the patched task is saved if it validates (500 otherwise) and
      the dashboard, the project room and the task room hear of it. */
  function PatchFields(st: Store, id: string, p: Patch, now: int): (r: Response)
    ensures r.status == 404 <==> Find(st.tasks, id).None?
    ensures r.status == 404 ==> r.store == st
    ensures r.status == 200 <==> Find(st.tasks, id).Some? && Valid(ApplyPatch(st.tasks[Find(st.tasks, id).value], p))
    ensures r.status == 200 ==>
      var t := st.tasks[Find(st.tasks, id).value];
      Gateway.Sent(st.io, r.store.io, [Gateway.DashboardNotice(ProjectOrg(st, t.projectId)),
                                       Gateway.Notice(Gateway.ProjectRoom(RoomKey(t.projectId)), "kanban.task.updated"),
                                       Gateway.Notice(Gateway.TaskRoom(id), "task.updated")])
    ensures r.status != 200 ==> r.store.io == st.io
  {
    match Find(st.tasks, id)
    case None => Response(st, 404)
    case Some(i) =>
      var t := st.tasks[i];
      var t' := ApplyPatch(t, p);
      var history := st.history + [History(t, now)];
      if !Valid(t') then
        Response(st.(history := history, log := Log(st.log, t.createdBy, UpdateActivity(t), "error", "Failed to update task", TaskMeta(id, None), now)), 500)
      else
        var log := Log(st.log, t'.createdBy, UpdateActivity(t'), "success", "Updated task", TaskMeta(t'.taskId, t'.projectId), now);
        var io := Gateway.EmitDashboardMetrics(st.io, ProjectOrg(st, t'.projectId));
        var io' := Gateway.EmitToProject(io, t'.projectId.value, "kanban.task.updated", Gateway.NoData);
        var io'' := Gateway.EmitToTask(io', t'.taskId, "task.updated", Gateway.NoData);
        Response(st.(tasks := st.tasks[i := t'], history := history, log := log, io := io''), 200)
  }

  /** A successful patch replaces exactly the found task by its patched
      form; a rejected one keeps every task and still records the history
      row. */
  lemma PatchFieldsEffect(st: Store, id: string, p: Patch, now: int)
    requires Find(st.tasks, id).Some?
    ensures var i := Find(st.tasks, id).value;
      var r := PatchFields(st, id, p, now);
      r.store.history == st.history + [History(st.tasks[i], now)] &&
      (r.status == 200 ==> r.store.tasks == st.tasks[i := ApplyPatch(st.tasks[i], p)]) &&
      (r.status != 200 ==> r.store.tasks == st.tasks)
  {
  }

  /** `DELETE /:taskId/delete`: 404 for an unknown task; otherwise history,
      a delete activity, the task is removed, and the project room and
      then the organization's dashboard hear of it. */
  function Delete(st: Store, id: string, now: int): (r: Response)
    ensures r.status == 404 <==> Find(st.tasks, id).None?
    ensures r.status == 404 ==> r.store == st
    ensures r.status == 200 ==> |r.store.tasks| == |st.tasks| - 1 && |r.store.history| == |st.history| + 1
    ensures r.status == 200 ==>
      var t := st.tasks[Find(st.tasks, id).value];
      Gateway.Sent(st.io, r.store.io, [Gateway.Notice(Gateway.ProjectRoom(RoomKey(t.projectId)), "kanban.task.deleted"),
                                       Gateway.DashboardNotice(ProjectOrg(st, t.projectId))])
  {
    match Find(st.tasks, id)
    case None => Response(st, 404)
    case Some(i) =>
      var t := st.tasks[i];
      var log := Log(st.log, t.createdBy, DeleteActivity(t), "success", "Deleted task", TaskMeta(t.taskId, t.projectId), now);
      var io := Gateway.EmitToProject(st.io, RoomKey(t.projectId), "kanban.task.deleted", Gateway.NoData);
      var io' := Gateway.EmitDashboardMetrics(io, ProjectOrg(st, t.projectId));
      Response(st.(tasks := st.tasks[..i] + st.tasks[i + 1..], history := st.history + [History(t, now)], log := log, io := io'), 200)
  }

  /** Deleting removes exactly the found task: every other task stays, in
      order, and the removed one is the one the history row keeps. */
  lemma DeleteRemovesOne(st: Store, id: string, now: int)
    requires Find(st.tasks, id).Some?
    ensures var i := Find(st.tasks, id).value;
      var r := Delete(st, id, now).store;
      r.tasks == st.tasks[..i] + st.tasks[i + 1..] &&
      r.history[|st.history|].before == st.tasks[i] &&
      forall t :: t in st.tasks && t.taskId != id ==> t in r.tasks
  {
    var i := Find(st.tasks, id).value;
    var r := Delete(st, id, now).store;
    forall t | t in st.tasks && t.taskId != id
      ensures t in r.tasks
    {
      var j :| 0 <= j < |st.tasks| && st.tasks[j] == t;
      if j < i {
        assert r.tasks[j] == t;
      } else {
        assert j > i;
        assert r.tasks[j - 1] == t;
      }
    }
  }

  /** Delete activities for the given tasks, in order. */
  function LogDeletes(log: seq<Activity.Record>, ts: seq<Task>, now: int): (r: seq<Activity.Record>)
    ensures |r| == |log| + |ts|
    ensures r[..|log|] == log
    decreases |ts|
  {
    if ts == [] then log
    else
      var l := Log(log, ts[0].createdBy, DeleteActivity(ts[0]), "success", "Deleted task", TaskMeta(ts[0].taskId, ts[0].projectId), now);
      var r := LogDeletes(l, ts[1..], now);
      assert r[..|l|] == l;
      assert r[..|log|] == r[..|l|][..|log|];
      r
  }

  function Snapshots(ts: seq<Task>, now: int): (r: seq<History>)
    ensures |r| == |ts| && forall k :: 0 <= k < |ts| ==> r[k] == History(ts[k], now)
  {
    seq(|ts|, k requires 0 <= k < |ts| => History(ts[k], now))
  }

  /** `DELETE /bulk-delete`: `taskIds` must be a non-empty array (400); if
      none of them exists, 404; otherwise every matching task gets a
      history row and a delete activity and is removed. */
  function BulkDelete(st: Store, taskIds: Option<seq<string>>, now: int): (r: Response)
    ensures r.status == 400 <==> taskIds.None? || taskIds.value == []
    ensures r.status == 404 <==>
      taskIds.Some? && taskIds.value != [] && forall t :: t in st.tasks ==> t.taskId !in taskIds.value
    ensures r.status != 200 ==> r.store == st
    ensures r.status == 200 ==>
      (forall t :: t in r.store.tasks <==> t in st.tasks && t.taskId !in taskIds.value) &&
      |r.store.tasks| < |st.tasks|
  {
    if taskIds.None? || taskIds.value == [] then Response(st, 400)
    else
      var ids := taskIds.value;
      var found := Filter(st.tasks, (t: Task) => t.taskId in ids);
      assert found != [] ==> found[0] in found;
      if found == [] then Response(st, 404)
      else
        var kept := Filter(st.tasks, (t: Task) => t.taskId !in ids);
        FilterSplit(st.tasks, ids);
        Response(st.(tasks := kept, history := st.history + Snapshots(found, now), log := LogDeletes(st.log, found, now)), 200)
  }

  /** The found and the kept tasks partition the list. */
  lemma {:induction false} FilterSplit(ts: seq<Task>, ids: seq<string>)
    ensures |Filter(ts, (t: Task) => t.taskId in ids)| + |Filter(ts, (t: Task) => t.taskId !in ids)| == |ts|
  {
    if ts != [] {
      FilterSplit(ts[1..], ids);
    }
  }

  // ---------------------------------------------------------------------
  // Status text
  // ---------------------------------------------------------------------

  /** The status shown in assignment emails. */
  function StatusText(s: int): (r: string)
    ensures r == "Unknown" <==> !(1 <= s <= 4)
  {
    if s == 1 then "Not Assigned"
    else if s == 2 then "Assigned"
    else if s == 3 then "In Progress"
    else if s == 4 then "Completed"
    else "Unknown"
  }

  /** The code each status text stands for. */
  function StatusCode(text: string): Option<int> {
    if text == "Not Assigned" then Some(1)
    else if text == "Assigned" then Some(2)
    else if text == "In Progress" then Some(3)
    else if text == "Completed" then Some(4)
    else None
  }

  /** The four known codes read back from their text; nothing else has a
      code. */
  lemma StatusTextRoundTrip(s: int)
    ensures 1 <= s <= 4 ==> StatusCode(StatusText(s)) == Some(s)
    ensures !(1 <= s <= 4) ==> StatusCode(StatusText(s)).None?
  {
  }
}
