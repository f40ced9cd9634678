/** Task and project attachments, routes/attachmentRoutes.js: the project
    listing that merges task and project attachments newest first, the
    create, read, update and delete handlers, and the bulk delete that the
    single delete route shadows. */
module Attachments {
  import opened Common
  import Gateway

  /** An attachment document.  `taskId` and `projectId` are null when
      absent; `fileSize` is absent for attachments created without upload. */
  datatype Attachment = Attachment(
    attachmentId: string,
    taskId: Option<string>,
    projectId: Option<string>,
    filename: string,
    fileUrl: string,
    fileSize: Option<nat>,
    uploadedBy: string,
    uploadedAt: int,
    updatedAt: int)

  /** The schema's required string fields are non-empty. */
  predicate ValidAttachment(a: Attachment) {
    a.filename != "" && a.fileUrl != "" && a.uploadedBy != ""
  }

  /** What the listing needs of a task document. */
  datatype TaskRef = TaskRef(taskId: string, projectId: string, name: string, typ: string, isActive: bool)

  datatype Store = Store(attachments: seq<Attachment>, tasks: seq<TaskRef>, io: Gateway.Server)

  // ---------------------------------------------------------------------
  // Ordering
  // ---------------------------------------------------------------------

  function UploadedAt(a: Attachment): int {
    a.uploadedAt
  }

  /** Newest `UploadedAt` first. */
  predicate NewestFirst(s: seq<Attachment>) {
    Descending(s, UploadedAt)
  }

  /** The listing order of `sort((a, b) => b.UploadedAt - a.UploadedAt)`. */
  function SortNewest(s: seq<Attachment>): (r: seq<Attachment>)
    ensures multiset(r) == multiset(s)
    ensures NewestFirst(r)
  {
    SortDesc(s, UploadedAt)
  }

  // ---------------------------------------------------------------------
  // GET /project/:projectId and GET /tasks/:taskId/attachments
  // ---------------------------------------------------------------------

  /** The active tasks of the project. */
  function ProjectTaskIds(tasks: seq<TaskRef>, projectId: string): set<string> {
    set t | t in tasks && t.projectId == projectId && t.isActive :: t.taskId
  }

  /** `TaskID: { $in: taskIds }`: a null task id matches nothing. */
  predicate OfTasks(a: Attachment, taskIds: set<string>) {
    a.taskId.Some? && a.taskId.value in taskIds
  }

  predicate OfProject(a: Attachment, projectId: string) {
    a.projectId == Some(projectId)
  }

  /** `!attachment.TaskID && attachment.ProjectID`. */
  predicate IsProjectAttachment(a: Attachment) {
    !Truthy(a.taskId) && Truthy(a.projectId)
  }

  function TaskOf(tasks: seq<TaskRef>, a: Attachment): Option<TaskRef> {
    if !Truthy(a.taskId) then None
    else match FirstWhere(tasks, (t: TaskRef) => t.taskId == a.taskId.value)
      case None => None
      case Some(k) => Some(tasks[k])
  }

  /** One entry of the project listing. */
  datatype Listed = Listed(attachment: Attachment, isProjectAttachment: bool, task: Option<TaskRef>)

  function Describe(tasks: seq<TaskRef>, s: seq<Attachment>): (r: seq<Listed>)
    ensures |r| == |s|
    ensures forall i :: 0 <= i < |s| ==> r[i].attachment == s[i] && (r[i].isProjectAttachment <==> IsProjectAttachment(s[i]))
  {
    seq(|s|, i requires 0 <= i < |s| => Listed(s[i], IsProjectAttachment(s[i]), TaskOf(tasks, s[i])))
  }

  function Attached(l: seq<Listed>): seq<Attachment> {
    seq(|l|, i requires 0 <= i < |l| => l[i].attachment)
  }

  /** The project listing: the attachments of the project's active tasks
      followed by those filed under the project, newest first.  An
      attachment that is both appears twice. */
  function ListProjectAttachments(st: Store, projectId: string): (r: seq<Listed>)
    ensures var ids := ProjectTaskIds(st.tasks, projectId);
      multiset(Attached(r)) ==
        multiset(Filter(st.attachments, (a: Attachment) => OfTasks(a, ids))) +
        multiset(Filter(st.attachments, (a: Attachment) => OfProject(a, projectId)))
    ensures NewestFirst(Attached(r))
    ensures forall i :: 0 <= i < |r| ==> (r[i].isProjectAttachment <==> IsProjectAttachment(r[i].attachment))
  {
    var ids := ProjectTaskIds(st.tasks, projectId);
    var merged := Filter(st.attachments, (a: Attachment) => OfTasks(a, ids)) +
                  Filter(st.attachments, (a: Attachment) => OfProject(a, projectId));
    var sorted := SortNewest(merged);
    var r := Describe(st.tasks, sorted);
    assert Attached(r) == sorted;
    r
  }

  /** An attachment is listed exactly when it belongs to an active task of
      the project or is filed under the project. */
  lemma ListedIffBelongs(st: Store, projectId: string, a: Attachment)
    ensures a in Attached(ListProjectAttachments(st, projectId)) <==>
      (a in st.attachments && (OfTasks(a, ProjectTaskIds(st.tasks, projectId)) || OfProject(a, projectId)))
  {
    var ids := ProjectTaskIds(st.tasks, projectId);
    var l := Attached(ListProjectAttachments(st, projectId));
    var f1 := Filter(st.attachments, (x: Attachment) => OfTasks(x, ids));
    var f2 := Filter(st.attachments, (x: Attachment) => OfProject(x, projectId));
    assert multiset(l) == multiset(f1) + multiset(f2);
    assert a in l <==> a in multiset(l);
    assert a in multiset(l) <==> a in multiset(f1) || a in multiset(f2);
    assert a in f1 <==> a in multiset(f1);
    assert a in f2 <==> a in multiset(f2);
  }

  /** An upload naming both a task of the project and the project itself is
      listed twice. */
  lemma BothIdsListedTwice(st: Store, projectId: string, a: Attachment)
    requires st.attachments == [a]
    requires OfTasks(a, ProjectTaskIds(st.tasks, projectId)) && OfProject(a, projectId)
    ensures multiset(Attached(ListProjectAttachments(st, projectId)))[a] == 2
  {
    var ids := ProjectTaskIds(st.tasks, projectId);
    assert Filter(st.attachments, (x: Attachment) => OfTasks(x, ids)) == [a];
    assert Filter(st.attachments, (x: Attachment) => OfProject(x, projectId)) == [a];
  }

  /** The attachments of one task, newest first. */
  function ListTaskAttachments(st: Store, taskId: string): (r: seq<Attachment>)
    ensures NewestFirst(r)
    ensures forall a :: a in r <==> a in st.attachments && a.taskId == Some(taskId)
  {
    var r := SortNewest(Filter(st.attachments, (a: Attachment) => a.taskId == Some(taskId)));
    assert forall a :: a in r <==> a in multiset(r);
    r
  }

  // ---------------------------------------------------------------------
  // POST /tasks/:taskId/attachments
  // ---------------------------------------------------------------------

  datatype Response = Response(store: Store, status: nat)

  /** Creating an attachment by reference needs a file name, a URL and an
      uploader (400 otherwise); the new attachment belongs to the task and
      is announced in the task's room. */
  function AddAttachment(st: Store, taskId: string, filename: Option<string>, fileUrl: Option<string>,
                         uploadedBy: Option<string>, attachmentId: string, now: int): (r: Response)
    ensures r.status in {201, 400}
    ensures r.status == 400 <==> !Truthy(filename) || !Truthy(fileUrl) || !Truthy(uploadedBy)
    ensures r.status == 400 ==> r.store == st
    ensures r.status == 201 ==>
      |r.store.attachments| == |st.attachments| + 1 && r.store.attachments[..|st.attachments|] == st.attachments &&
      ValidAttachment(r.store.attachments[|st.attachments|]) &&
      r.store.attachments[|st.attachments|].taskId == Some(taskId) &&
      r.store.attachments[|st.attachments|].projectId.None? &&
      r.store.attachments[|st.attachments|].uploadedAt == now &&
      r.store.io == Gateway.EmitToTask(st.io, taskId, "task.attachment.added", Gateway.NoData)
  {
    if !Truthy(filename) || !Truthy(fileUrl) || !Truthy(uploadedBy) then Response(st, 400)
    else
      var a := Attachment(attachmentId, Some(taskId), None, filename.value, fileUrl.value, None,
                          uploadedBy.value, now, now);
      Response(st.(attachments := st.attachments + [a],
                   io := Gateway.EmitToTask(st.io, taskId, "task.attachment.added", Gateway.NoData)), 201)
  }

  // ---------------------------------------------------------------------
  // GET, PATCH and DELETE /:attachmentId
  // ---------------------------------------------------------------------

  function AttachmentIndex(s: seq<Attachment>, attachmentId: string): (r: Option<nat>)
    ensures r.Some? ==> r.value < |s| && s[r.value].attachmentId == attachmentId
    ensures r.None? <==> forall j :: 0 <= j < |s| ==> s[j].attachmentId != attachmentId
  {
    FirstWhere(s, (a: Attachment) => a.attachmentId == attachmentId)
  }

  function GetAttachment(st: Store, attachmentId: string): (r: Reply<Attachment>)
    ensures r.Err? <==> forall j :: 0 <= j < |st.attachments| ==> st.attachments[j].attachmentId != attachmentId
    ensures r.Err? ==> r.code == 404
    ensures r.Ok? ==> r.value in st.attachments && r.value.attachmentId == attachmentId
  {
    match AttachmentIndex(st.attachments, attachmentId)
    case None => Err(404)
    case Some(k) => Ok(st.attachments[k])
  }

  /** The fields a request body may carry; an absent field is kept. */
  datatype Patch = Patch(
    attachmentId: Option<string>,
    taskId: Option<string>,
    projectId: Option<string>,
    filename: Option<string>,
    fileUrl: Option<string>,
    fileSize: Option<nat>,
    uploadedBy: Option<string>,
    uploadedAt: Option<int>)

  function Keep<T>(update: Option<T>, current: T): (r: T)
    ensures update.Some? ==> r == update.value
    ensures update.None? ==> r == current
  {
    if update.Some? then update.value else current
  }

  function Patched(a: Attachment, p: Patch, now: int): Attachment {
    a.(attachmentId := Keep(p.attachmentId, a.attachmentId),
       taskId := if p.taskId.Some? then p.taskId else a.taskId,
       projectId := if p.projectId.Some? then p.projectId else a.projectId,
       filename := Keep(p.filename, a.filename), fileUrl := Keep(p.fileUrl, a.fileUrl),
       fileSize := if p.fileSize.Some? then p.fileSize else a.fileSize,
       uploadedBy := Keep(p.uploadedBy, a.uploadedBy), uploadedAt := Keep(p.uploadedAt, a.uploadedAt),
       updatedAt := now)
  }

  /** `findOneAndUpdate({ ...body, UpdatedAt: now })`: 404 for an unknown
      id; otherwise every field the body carries is written, without
      validation, and `UpdatedAt` is always the current time. */
  function UpdateAttachment(st: Store, attachmentId: string, p: Patch, now: int): (r: Reply<Store>)
    ensures r.Err? <==> AttachmentIndex(st.attachments, attachmentId).None?
    ensures r.Err? ==> r.code == 404
    ensures r.Ok? ==> |r.value.attachments| == |st.attachments|
    ensures r.Ok? ==> var k := AttachmentIndex(st.attachments, attachmentId).value;
      var a := st.attachments[k];
      var b := r.value.attachments[k];
      (forall j :: 0 <= j < |st.attachments| && j != k ==> r.value.attachments[j] == st.attachments[j]) &&
      b.updatedAt == now &&
      (p.uploadedAt.Some? ==> b.uploadedAt == p.uploadedAt.value) && (p.uploadedAt.None? ==> b.uploadedAt == a.uploadedAt) &&
      (p.filename.Some? ==> b.filename == p.filename.value) && (p.filename.None? ==> b.filename == a.filename) &&
      (p.fileUrl.Some? ==> b.fileUrl == p.fileUrl.value) && (p.fileUrl.None? ==> b.fileUrl == a.fileUrl) &&
      (p.taskId.Some? ==> b.taskId == p.taskId) && (p.taskId.None? ==> b.taskId == a.taskId) &&
      (p.projectId.Some? ==> b.projectId == p.projectId) && (p.projectId.None? ==> b.projectId == a.projectId) &&
      (p.fileSize.Some? ==> b.fileSize == p.fileSize) && (p.fileSize.None? ==> b.fileSize == a.fileSize) &&
      (p.uploadedBy.Some? ==> b.uploadedBy == p.uploadedBy.value) && (p.uploadedBy.None? ==> b.uploadedBy == a.uploadedBy) &&
      (p.attachmentId.Some? ==> b.attachmentId == p.attachmentId.value) &&
      (p.attachmentId.None? ==> b.attachmentId == a.attachmentId)
  {
    match AttachmentIndex(st.attachments, attachmentId)
    case None => Err(404)
    case Some(k) => Ok(st.(attachments := st.attachments[k := Patched(st.attachments[k], p, now)]))
  }

  /** An empty body only stamps the update time. */
  lemma EmptyPatchOnlyStamps(st: Store, attachmentId: string, now: int)
    requires AttachmentIndex(st.attachments, attachmentId).Some?
    ensures var k := AttachmentIndex(st.attachments, attachmentId).value;
      UpdateAttachment(st, attachmentId, Patch(None, None, None, None, None, None, None, None), now).value.attachments ==
        st.attachments[k := st.attachments[k].(updatedAt := now)]
  {
  }

  /** Deleting an attachment: 404 for an unknown id; otherwise the first
      match is removed and `task.attachment.removed` goes to its task's room
      (`task:null` for a project attachment). */
  function DeleteAttachment(st: Store, attachmentId: string): (r: Response)
    ensures r.status in {200, 404}
    ensures r.status == 404 <==> AttachmentIndex(st.attachments, attachmentId).None?
    ensures r.status == 404 ==> r.store == st
    ensures r.status == 200 ==> var k := AttachmentIndex(st.attachments, attachmentId).value;
      r.store.attachments == st.attachments[..k] + st.attachments[k + 1..] &&
      r.store.io == Gateway.EmitTo(st.io, Gateway.TaskRoom(Gateway.OrgText(st.attachments[k].taskId)),
                                   "task.attachment.removed", Gateway.NoData)
  {
    match AttachmentIndex(st.attachments, attachmentId)
    case None => Response(st, 404)
    case Some(k) =>
      var a := st.attachments[k];
      Response(st.(attachments := st.attachments[..k] + st.attachments[k + 1..],
                   io := Gateway.EmitTo(st.io, Gateway.TaskRoom(Gateway.OrgText(a.taskId)),
                                        "task.attachment.removed", Gateway.NoData)), 200)
  }

  /** With distinct ids, a deleted attachment can no longer be found. */
  lemma DeleteThenGet(st: Store, attachmentId: string)
    requires forall i, j :: 0 <= i < j < |st.attachments| ==> st.attachments[i].attachmentId != st.attachments[j].attachmentId
    requires AttachmentIndex(st.attachments, attachmentId).Some?
    ensures GetAttachment(DeleteAttachment(st, attachmentId).store, attachmentId) == Err(404)
  {
    var k := AttachmentIndex(st.attachments, attachmentId).value;
    var s := DeleteAttachment(st, attachmentId).store.attachments;
    forall j | 0 <= j < |s|
      ensures s[j].attachmentId != attachmentId
    {
      if j < k { assert s[j] == st.attachments[j]; } else { assert s[j] == st.attachments[j + 1]; }
    }
  }

  // ---------------------------------------------------------------------
  // DELETE /bulk-delete
  // ---------------------------------------------------------------------

  datatype Deleted = Deleted(store: Store, status: nat, deletedCount: nat)

  /** The bulk delete handler: the ids must be a non-empty array (400
      otherwise); every attachment with a listed id is removed and counted. */
  function BulkDelete(st: Store, attachmentIds: Option<seq<string>>): (r: Deleted)
    ensures r.status in {200, 400}
    ensures r.status == 400 <==> attachmentIds.None? || attachmentIds.value == []
    ensures r.status == 400 ==> r.store == st && r.deletedCount == 0
    ensures r.status == 200 ==>
      (forall a :: a in r.store.attachments <==> a in st.attachments && a.attachmentId !in attachmentIds.value) &&
      r.deletedCount + |r.store.attachments| == |st.attachments| &&
      r.store.io == st.io && r.store.tasks == st.tasks
  {
    if attachmentIds.None? || attachmentIds.value == [] then Deleted(st, 400, 0)
    else
      var ids := attachmentIds.value;
      var kept := Filter(st.attachments, (a: Attachment) => a.attachmentId !in ids);
      CountSplit(st.attachments, (a: Attachment) => a.attachmentId in ids, (a: Attachment) => a.attachmentId !in ids);
      Deleted(st.(attachments := kept), 200, CountWhere(st.attachments, (a: Attachment) => a.attachmentId in ids))
  }

  /** `DELETE /:attachmentId` is registered before `DELETE /bulk-delete`,
      so a request to `/bulk-delete` reaches the single delete with
      `attachmentId = "bulk-delete"`. */
  function DeleteRoute(st: Store, segment: string, attachmentIds: Option<seq<string>>): (r: Deleted)
    ensures var d := DeleteAttachment(st, segment); r == Deleted(d.store, d.status, 0)
  {
    var d := DeleteAttachment(st, segment);
    Deleted(d.store, d.status, 0)
  }

  /** The routing the bulk handler calls for: the literal path first. */
  function DeleteRouteIntended(st: Store, segment: string, attachmentIds: Option<seq<string>>): (r: Deleted)
    ensures segment == "bulk-delete" ==> r == BulkDelete(st, attachmentIds)
    ensures segment != "bulk-delete" ==> r.status == DeleteAttachment(st, segment).status
  {
    if segment == "bulk-delete" then BulkDelete(st, attachmentIds)
    else
      var d := DeleteAttachment(st, segment);
      Deleted(d.store, d.status, 0)
  }

  /** A bulk delete of existing attachments answers 404 and removes
      nothing, unless some attachment is itself named "bulk-delete"; with
      the literal route first the same request removes them all. */
  lemma BulkDeleteShadowed(st: Store, ids: seq<string>)
    requires ids != []
    requires forall j :: 0 <= j < |st.attachments| ==> st.attachments[j].attachmentId != "bulk-delete"
    ensures DeleteRoute(st, "bulk-delete", Some(ids)) == Deleted(st, 404, 0)
    ensures var r := DeleteRouteIntended(st, "bulk-delete", Some(ids));
      r.status == 200 && forall a :: a in r.store.attachments ==> a.attachmentId !in ids
  {
  }
}
