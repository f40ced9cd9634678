/** Subtasks (routes/subtaskRoutes.js, models/Subtask.js).  The routes
    store `TaskID_FK`, `Name`, `IsActive`, `CreatedBy`, `CompletedBy` and
    the modification stamps, while the declared schema has `TaskID` and
    `Title` and none of the others; `DeclaredSubtask` models what the
    declared schema makes of a create request, and the rest of the module
    models the handlers over the fields the routes use. */
module Subtasks {
  import opened Common
  import Activity
  import Gateway
  import Tasks

  const TitleMax: nat := 100

  /** A subtask as the routes read and write it. */
  datatype Subtask = Subtask(
    subtaskId: string,
    taskId: string,
    name: string,
    isCompleted: bool,
    isActive: bool,
    createdBy: string,
    createdDate: int,
    completedBy: Option<string>,
    completedDate: Option<int>,
    modifiedBy: Option<string>,
    modifiedDate: Option<int>)

  /** `Name` is required (non-empty) and keeps the 100-character cap the
      schema puts on `Title`. */
  predicate Valid(s: Subtask) {
    s.taskId != "" && s.name != "" && |s.name| <= TitleMax
  }

  datatype Store = Store(
    subtasks: seq<Subtask>,
    tasks: seq<Tasks.Task>,
    log: seq<Activity.Record>,
    io: Gateway.Server)

  datatype Response = Response(store: Store, status: nat)

  /** `TaskDetails.findOne({TaskID, IsActive: true})`. */
  function FindTask(ts: seq<Tasks.Task>, id: string): (r: Option<nat>)
    ensures r.Some? ==> r.value < |ts| && ts[r.value].taskId == id && ts[r.value].isActive
    ensures r.None? <==> forall j :: 0 <= j < |ts| ==> !(ts[j].taskId == id && ts[j].isActive)
  {
    if ts == [] then None
    else if ts[0].taskId == id && ts[0].isActive then Some(0)
    else match FindTask(ts[1..], id)
      case None => None
      case Some(k) => Some(k + 1)
  }

  /** `Subtask.findOne({SubtaskID, IsActive: true})`. */
  function Find(ss: seq<Subtask>, id: string): (r: Option<nat>)
    ensures r.Some? ==> r.value < |ss| && ss[r.value].subtaskId == id && ss[r.value].isActive
    ensures r.None? <==> forall j :: 0 <= j < |ss| ==> !(ss[j].subtaskId == id && ss[j].isActive)
  {
    if ss == [] then None
    else if ss[0].subtaskId == id && ss[0].isActive then Some(0)
    else match Find(ss[1..], id)
      case None => None
      case Some(k) => Some(k + 1)
  }

  // ---------------------------------------------------------------------
  // The declared schema
  // ---------------------------------------------------------------------

  /** The paths of the declared schema a create request can fill. */
  datatype DeclaredSubtask = DeclaredSubtask(taskID: Option<string>, title: Option<string>)

  /** `new Subtask({TaskID_FK, Name, CreatedBy})` under the declared schema:
      none of the three is a schema path, so all are dropped. */
  function DeclaredDocument(taskIdFk: string, name: string, createdBy: string): (d: DeclaredSubtask)
    ensures d.taskID.None? && d.title.None?
  {
    DeclaredSubtask(None, None)
  }

  /** The declared schema's `required` checks on `TaskID` and `Title`. */
  predicate DeclaredValid(d: DeclaredSubtask) {
    Truthy(d.taskID) && Truthy(d.title) && |d.title.value| <= TitleMax
  }

  /** The answer to a create whose save does or does not validate. */
  function Created(saved: bool): (code: nat)
    ensures code == 201 <==> saved
  {
    if saved then 201 else 500
  }

  /** `POST /` as written: after the 400 and 404 checks the save always
      fails validation. */
  function CreateAsWritten(st: Store, taskId: Option<string>, name: Option<string>, user: string, id: string, now: int): (r: Response)
    ensures r.store == st
    ensures r.status == 400 <==> !Truthy(taskId) || !Truthy(name)
    ensures r.status == 404 <==> Truthy(taskId) && Truthy(name) && FindTask(st.tasks, taskId.value).None?
  {
    if !Truthy(taskId) || !Truthy(name) then Response(st, 400)
    else if FindTask(st.tasks, taskId.value).None? then Response(st, 404)
    else Response(st, Created(DeclaredValid(DeclaredDocument(taskId.value, name.value, user))))
  }

  /** No request ever creates a subtask through the declared schema. */
  lemma CreateAsWrittenNeverSucceeds(st: Store, taskId: Option<string>, name: Option<string>, user: string, id: string, now: int)
    ensures CreateAsWritten(st, taskId, name, user, id, now).status != 201
  {
  }

  // ---------------------------------------------------------------------
  // The handlers over the route fields
  // ---------------------------------------------------------------------

  function Meta(taskId: string, subtaskId: string): (m: map<string, string>)
    ensures "taskId" in m && m["taskId"] == taskId
  {
    map["taskId" := taskId, "subtaskId" := subtaskId]
  }

  /** `POST /`: 400 without a task id or a name, 404 without an active
      parent task; otherwise a new incomplete, active subtask, an activity
      and an event to the task room. */
  function Create(st: Store, taskId: Option<string>, name: Option<string>, user: string, id: string, now: int): (r: Response)
    ensures r.status == 400 <==> !Truthy(taskId) || !Truthy(name)
    ensures r.status == 404 <==> Truthy(taskId) && Truthy(name) && FindTask(st.tasks, taskId.value).None?
    ensures r.status != 201 ==> r.store.subtasks == st.subtasks
    ensures r.status == 201 ==>
      |r.store.subtasks| == |st.subtasks| + 1 && r.store.subtasks[..|st.subtasks|] == st.subtasks &&
      var s := r.store.subtasks[|st.subtasks|];
      s.taskId == taskId.value && s.name == name.value && !s.isCompleted && s.isActive && s.createdBy == user &&
      s.completedBy.None? && s.subtaskId == id
  {
    if !Truthy(taskId) || !Truthy(name) then Response(st, 400)
    else if FindTask(st.tasks, taskId.value).None? then Response(st, 404)
    else
      var s := Subtask(id, taskId.value, name.value, false, true, user, now, None, None, None, None);
      if !Valid(s) then Response(st, 500)
      else
        var log := Activity.LogActivity(st.log, Some(user), "subtask_create", "success", "Created subtask", Meta(taskId.value, id), None, now).log;
        var io := Gateway.EmitToTask(st.io, taskId.value, "task.subtask.created", Gateway.NoData);
        Response(Store(st.subtasks + [s], st.tasks, log, io), 201)
  }

  /** The update of one subtask's fields: `Name` only when given, and the
      modification stamps always. */
  function Renamed(s: Subtask, name: Option<string>, user: string, now: int): (u: Subtask)
    ensures u.name == (if name.Some? then name.value else s.name)
    ensures u.modifiedBy == Some(user) && u.modifiedDate == Some(now)
    ensures u.(name := s.name, modifiedBy := s.modifiedBy, modifiedDate := s.modifiedDate) == s
  {
    s.(name := if name.Some? then name.value else s.name, modifiedBy := Some(user), modifiedDate := Some(now))
  }

  /** `PUT /:subtaskId`: 404 unless an active subtask has that id;
      otherwise the renamed subtask is saved if it validates (500
      otherwise). */
  function Update(st: Store, id: string, name: Option<string>, user: string, now: int): (r: Response)
    ensures r.status == 404 <==> Find(st.subtasks, id).None?
    ensures r.status != 200 ==> r.store.subtasks == st.subtasks
    ensures r.status == 200 ==> var i := Find(st.subtasks, id).value;
      r.store.subtasks == st.subtasks[i := Renamed(st.subtasks[i], name, user, now)]
  {
    match Find(st.subtasks, id)
    case None => Response(st, 404)
    case Some(i) =>
      var u := Renamed(st.subtasks[i], name, user, now);
      if !Valid(u) then Response(st, 500)
      else
        var log := Activity.LogActivity(st.log, Some(user), "subtask_update", "success", "Updated subtask", Meta(u.taskId, id), None, now).log;
        var io := Gateway.EmitToTask(st.io, u.taskId, "task.subtask.updated", Gateway.NoData);
        Response(Store(st.subtasks[i := u], st.tasks, log, io), 200)
  }

  /** One toggle: completion flips; the completer and date are set when it
      becomes complete and cleared when it becomes incomplete. */
  function Toggled(s: Subtask, user: string, now: int): (u: Subtask)
    ensures u.isCompleted == !s.isCompleted
    ensures u.isCompleted ==> u.completedBy == Some(user) && u.completedDate == Some(now)
    ensures !u.isCompleted ==> u.completedBy.None? && u.completedDate.None?
    ensures u.modifiedBy == Some(user) && u.modifiedDate == Some(now)
    ensures u.subtaskId == s.subtaskId && u.taskId == s.taskId && u.name == s.name && u.isActive == s.isActive &&
            u.createdBy == s.createdBy && u.createdDate == s.createdDate
  {
    var done := !s.isCompleted;
    s.(isCompleted := done,
       completedBy := if done then Some(user) else None,
       completedDate := if done then Some(now) else None,
       modifiedBy := Some(user), modifiedDate := Some(now))
  }

  /** `PATCH /:subtaskId/toggle`. */
  function Toggle(st: Store, id: string, user: string, now: int): (r: Response)
    ensures r.status == 404 <==> Find(st.subtasks, id).None?
    ensures r.status != 200 ==> r.store.subtasks == st.subtasks
    ensures r.status == 200 ==> var i := Find(st.subtasks, id).value;
      r.store.subtasks == st.subtasks[i := Toggled(st.subtasks[i], user, now)]
  {
    match Find(st.subtasks, id)
    case None => Response(st, 404)
    case Some(i) =>
      var u := Toggled(st.subtasks[i], user, now);
      if !Valid(u) then Response(st, 500)
      else
        var typ := if u.isCompleted then "subtask_complete" else "subtask_uncomplete";
        var log := Activity.LogActivity(st.log, Some(user), typ, "success", "Toggled subtask", Meta(u.taskId, id), None, now).log;
        var io := Gateway.EmitToTask(st.io, u.taskId, "task.subtask.updated", Gateway.NoData);
        Response(Store(st.subtasks[i := u], st.tasks, log, io), 200)
  }

  /** Toggling twice restores the completion flag, and a subtask that was
      incomplete has no completer again. */
  lemma ToggleTwice(s: Subtask, a: string, b: string, t1: int, t2: int)
    ensures Toggled(Toggled(s, a, t1), b, t2).isCompleted == s.isCompleted
    ensures !s.isCompleted ==> Toggled(Toggled(s, a, t1), b, t2).completedBy.None?
    ensures s.isCompleted ==> Toggled(Toggled(s, a, t1), b, t2).completedBy == Some(b)
  {
  }

  /** `DELETE /:subtaskId`: a soft delete that only clears `IsActive` and
      stamps the modification. */
  function Delete(st: Store, id: string, user: string, now: int): (r: Response)
    ensures r.status == 404 <==> Find(st.subtasks, id).None?
    ensures r.status != 200 ==> r.store.subtasks == st.subtasks
    ensures r.status == 200 ==> var i := Find(st.subtasks, id).value;
      |r.store.subtasks| == |st.subtasks| &&
      r.store.subtasks == st.subtasks[i := st.subtasks[i].(isActive := false, modifiedBy := Some(user), modifiedDate := Some(now))]
  {
    match Find(st.subtasks, id)
    case None => Response(st, 404)
    case Some(i) =>
      var s := st.subtasks[i];
      var u := s.(isActive := false, modifiedBy := Some(user), modifiedDate := Some(now));
      if !Valid(u) then Response(st, 500)
      else
        var log := Activity.LogActivity(st.log, Some(user), "subtask_delete", "success", "Deleted subtask", Meta(u.taskId, id), None, now).log;
        var io := Gateway.EmitToTask(st.io, u.taskId, "task.subtask.deleted", Gateway.NoData);
        Response(Store(st.subtasks[i := u], st.tasks, log, io), 200)
  }

  /** Once the only subtask with an id is deleted, update, toggle and
      delete of that id all answer 404. */
  lemma DeletedIsGone(st: Store, id: string, name: Option<string>, user: string, now: int, u2: string, t2: int)
    requires Find(st.subtasks, id).Some?
    requires forall j :: 0 <= j < |st.subtasks| && st.subtasks[j].subtaskId == id ==> j == Find(st.subtasks, id).value
    requires Delete(st, id, user, now).status == 200
    ensures var st' := Delete(st, id, user, now).store;
      Update(st', id, name, u2, t2).status == 404 &&
      Toggle(st', id, u2, t2).status == 404 &&
      Delete(st', id, u2, t2).status == 404
  {
    var i := Find(st.subtasks, id).value;
    var st' := Delete(st, id, user, now).store;
    forall j | 0 <= j < |st'.subtasks|
      ensures !(st'.subtasks[j].subtaskId == id && st'.subtasks[j].isActive)
    {
      if j != i {
        assert st'.subtasks[j] == st.subtasks[j];
      }
    }
  }

  /** `GET /:taskId`: 404 without an active task; otherwise the task's
      active subtasks in creation order. */
  function List(st: Store, taskId: string): (r: Reply<seq<Subtask>>)
    ensures r.Err? <==> FindTask(st.tasks, taskId).None?
    ensures r.Err? ==> r.code == 404
    ensures r.Ok? ==> forall s :: s in r.value <==> s in st.subtasks && s.taskId == taskId && s.isActive
  {
    if FindTask(st.tasks, taskId).None? then Err(404)
    else Ok(Filter(st.subtasks, (s: Subtask) => s.taskId == taskId && s.isActive))
  }
}
