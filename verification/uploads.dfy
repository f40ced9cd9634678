/** File uploads, routes/uploadRoutes.js: the two multer filters with
    their size caps, the image and chat uploads that only answer a URL, and
    the attachment upload that records, announces and logs the file. */
module Uploads {
  import opened Common
  import Gateway
  import Activity
  import Attachments

  /** A received file.  `storedName` is the name the disk storage chose
      (time, a random number and the original extension). */
  datatype File = File(originalName: string, storedName: string, mimetype: string, size: nat)

  /** Which multer instance receives the file. */
  datatype Kind = ImageKind | AttachmentKind

  /** The prefixes of the attachment allow-list. */
  const AllowedMimeTypes: seq<string> := [
    "image/", "video/", "application/pdf", "application/msword",
    "application/vnd.openxmlformats-officedocument.wordprocessingml.document",
    "application/vnd.ms-excel",
    "application/vnd.openxmlformats-officedocument.spreadsheetml.sheet",
    "text/plain", "text/csv", "application/json", "application/xml", "text/html", "text/css",
    "application/javascript", "text/javascript"]

  const MB: nat := 1024 * 1024
  const ImageMaxBytes: nat := 5 * MB
  const AttachmentMaxBytes: nat := 50 * MB

  /** `imageFileFilter`. */
  predicate ImageAccepted(mimetype: string) {
    StartsWith(mimetype, "image/")
  }

  /** `attachmentFileFilter`: some entry is a prefix of, or equal to, the
      type. */
  predicate AttachmentAccepted(mimetype: string) {
    exists k :: 0 <= k < |AllowedMimeTypes| && (StartsWith(mimetype, AllowedMimeTypes[k]) || mimetype == AllowedMimeTypes[k])
  }

  /** The equality test adds nothing to the prefix test, and every image
      passes the attachment filter too. */
  lemma AttachmentFilterIsPrefixMatch(mimetype: string)
    ensures AttachmentAccepted(mimetype) <==>
      (exists k :: 0 <= k < |AllowedMimeTypes| && StartsWith(mimetype, AllowedMimeTypes[k]))
    ensures ImageAccepted(mimetype) ==> AttachmentAccepted(mimetype)
  {
    if ImageAccepted(mimetype) {
      assert StartsWith(mimetype, AllowedMimeTypes[0]);
    }
    if AttachmentAccepted(mimetype) {
      var k :| 0 <= k < |AllowedMimeTypes| && (StartsWith(mimetype, AllowedMimeTypes[k]) || mimetype == AllowedMimeTypes[k]);
      assert StartsWith(mimetype, AllowedMimeTypes[k]);
    }
  }

  /** A type outside the list, such as an archive, is refused. */
  lemma ArchiveRefused()
    ensures !AttachmentAccepted("application/zip")
  {
    var m := "application/zip";
    forall k | 0 <= k < |AllowedMimeTypes|
      ensures !StartsWith(m, AllowedMimeTypes[k]) && m != AllowedMimeTypes[k]
    {
      var t := AllowedMimeTypes[k];
      if |t| <= |m| {
        if t[0] == m[0] {
          assert |t| == |m| && t[12] != m[12];
          assert m[..|t|][12] != t[12];
        } else {
          assert m[..|t|][0] != t[0];
        }
      }
    }
  }

  function Accepts(kind: Kind, mimetype: string): bool {
    match kind
    case ImageKind => ImageAccepted(mimetype)
    case AttachmentKind => AttachmentAccepted(mimetype)
  }

  function MaxBytes(kind: Kind): nat {
    match kind
    case ImageKind => ImageMaxBytes
    case AttachmentKind => AttachmentMaxBytes
  }

  /** What multer hands to the route. */
  datatype Received = NoFile | Refused | Received(file: File)

  /** The filter's refusal and a file over the cap are errors that reach
      the application's error handler; a request without the file field
      reaches the route with no file. */
  function Receive(kind: Kind, file: Option<File>): (r: Received)
    ensures r.NoFile? <==> file.None?
    ensures r.Received? <==> file.Some? && Accepts(kind, file.value.mimetype) && file.value.size <= MaxBytes(kind)
    ensures r.Received? ==> r.file == file.value
  {
    match file
    case None => NoFile
    case Some(f) => if Accepts(kind, f.mimetype) && f.size <= MaxBytes(kind) then Received(f) else Refused
  }

  /** The public URL of a stored file. */
  function FileUrl(f: File): string {
    "/uploads/" + f.storedName
  }

  /** A status with the URL of the stored file on success. */
  datatype UrlReply = UrlReply(status: nat, url: Option<string>)

  /** `POST /` and `POST /chat/upload`: 400 without a file, 500 from the
      error handler for a refused or oversized file, otherwise the file's
      URL. */
  function UploadUrl(kind: Kind, file: Option<File>): (r: UrlReply)
    ensures r.status in {200, 400, 500}
    ensures r.status == 400 <==> file.None?
    ensures r.status == 200 <==> Receive(kind, file).Received?
    ensures r.url.Some? <==> r.status == 200
    ensures r.status == 200 ==> r.url == Some(FileUrl(file.value)) && StartsWith(r.url.value, "/uploads/")
  {
    match Receive(kind, file)
    case NoFile => UrlReply(400, None)
    case Refused => UrlReply(500, None)
    case Received(f) => UrlReply(200, Some(FileUrl(f)))
  }

  /** An image over 5 MB is refused even though an attachment of that size
      is accepted. */
  lemma ImageCapBelowAttachmentCap(f: File)
    requires ImageAccepted(f.mimetype) && ImageMaxBytes < f.size <= AttachmentMaxBytes
    ensures UploadUrl(ImageKind, Some(f)).status == 500
    ensures UploadUrl(AttachmentKind, Some(f)).status == 200
  {
    AttachmentFilterIsPrefixMatch(f.mimetype);
  }

  // ---------------------------------------------------------------------
  // POST /attachments/upload
  // ---------------------------------------------------------------------

  /** The upload form's text fields. */
  datatype Form = Form(taskId: Option<string>, projectId: Option<string>, userId: Option<string>,
                       filename: Option<string>)

  /** What the activity details need of the task and project collections. */
  datatype Names = Names(tasks: map<string, Attachments.TaskRef>, projects: map<string, string>)

  datatype Store = Store(attachments: seq<Attachments.Attachment>, log: seq<Activity.Record>, io: Gateway.Server)

  datatype Outcome = Outcome(store: Store, status: nat, attachment: Option<Attachments.Attachment>)

  /** The record built from the form: null ids when absent, the original
      name when no file name is given. */
  function Record(f: File, form: Form, attachmentId: string, now: int): (a: Attachments.Attachment)
    requires Truthy(form.userId)
    ensures a.taskId == (if Truthy(form.taskId) then form.taskId else None)
    ensures a.projectId == (if Truthy(form.projectId) then form.projectId else None)
    ensures a.filename == (if Truthy(form.filename) then form.filename.value else f.originalName)
    ensures a.fileUrl == FileUrl(f) && a.fileSize == Some(f.size) && a.uploadedBy == form.userId.value
    ensures a.uploadedAt == now
  {
    Attachments.Attachment(attachmentId, if Truthy(form.taskId) then form.taskId else None,
                           if Truthy(form.projectId) then form.projectId else None,
                           if Truthy(form.filename) then form.filename.value else f.originalName,
                           FileUrl(f), Some(f.size), form.userId.value, now, now)
  }

  /** The room told about the new attachment: the task's when a task is
      named, otherwise the project's. */
  function Announce(io: Gateway.Server, form: Form): (io': Gateway.Server)
    requires Truthy(form.taskId) || Truthy(form.projectId)
    ensures Truthy(form.taskId) ==> io' == Gateway.EmitToTask(io, form.taskId.value, "task.attachment.added", Gateway.NoData)
    ensures !Truthy(form.taskId) ==> io' == Gateway.EmitToProject(io, form.projectId.value, "project.attachment.added", Gateway.NoData)
  {
    if Truthy(form.taskId) then Gateway.EmitToTask(io, form.taskId.value, "task.attachment.added", Gateway.NoData)
    else Gateway.EmitToProject(io, form.projectId.value, "project.attachment.added", Gateway.NoData)
  }

  function Quoted(s: string): string {
    "\"" + s + "\""
  }

  /** The activity details and metadata of an upload. */
  function Details(a: Attachments.Attachment, form: Form, names: Names): (r: (string, map<string, string>))
    requires Truthy(form.taskId) || Truthy(form.projectId)
    ensures "fileName" in r.1 && r.1["fileName"] == a.filename && "fileUrl" in r.1 && r.1["fileUrl"] == a.fileUrl
    ensures Truthy(form.taskId) ==> "taskId" in r.1 && r.1["taskId"] == form.taskId.value
    ensures !Truthy(form.taskId) ==> "projectId" in r.1 && r.1["projectId"] == form.projectId.value
  {
    var base := map["fileName" := a.filename, "fileUrl" := a.fileUrl, "attachmentId" := a.attachmentId,
                    "fileSize" := if a.fileSize.Some? then NatToString(a.fileSize.value) else ""];
    if Truthy(form.taskId) then
      var id := form.taskId.value;
      if id in names.tasks then
        var t := names.tasks[id];
        ("Added attachment " + Quoted(a.filename) + " to task " + Quoted(t.name),
         base["taskId" := id]["taskName" := t.name]["taskType" := t.typ]["projectId" := t.projectId])
      else
        ("Added attachment " + Quoted(a.filename) + " to task " + Quoted(id), base["taskId" := id])
    else
      var id := form.projectId.value;
      if id in names.projects then
        ("Added attachment " + Quoted(a.filename) + " to project " + Quoted(names.projects[id]),
         base["projectId" := id]["projectName" := names.projects[id]])
      else
        ("Added attachment " + Quoted(a.filename) + " to project " + Quoted(id), base["projectId" := id])
  }

  /** `POST /attachments/upload`: multer first, then the file (400), the
      user (400) and a task or project (400), in that order; a record the
      schema refuses (an empty original name with no file name given)
      gives 500.  Success saves the record, announces it, logs
      `attachment_added` for the uploader and answers 200. */
  function UploadAttachment(st: Store, file: Option<File>, form: Form, names: Names,
                            attachmentId: string, now: int): (r: Outcome)
    ensures r.status in {200, 400, 500}
    ensures r.status == 400 <==>
      (file.None? || (Receive(AttachmentKind, file).Received? && (!Truthy(form.userId) ||
        (!Truthy(form.taskId) && !Truthy(form.projectId)))))
    ensures r.status != 200 ==> r.store == st && r.attachment.None?
    ensures r.status == 200 ==>
      Receive(AttachmentKind, file).Received? && Truthy(form.userId) &&
      (Truthy(form.taskId) || Truthy(form.projectId)) &&
      r.attachment == Some(Record(file.value, form, attachmentId, now)) &&
      Attachments.ValidAttachment(r.attachment.value) &&
      r.store.attachments == st.attachments + [r.attachment.value] &&
      r.store.io == Announce(st.io, form) &&
      |r.store.log| == |st.log| + 1 &&
      r.store.log[|st.log|].typ == "attachment_added" && r.store.log[|st.log|].user == form.userId
  {
    match Receive(AttachmentKind, file)
    case NoFile => Outcome(st, 400, None)
    case Refused => Outcome(st, 500, None)
    case Received(f) =>
      if !Truthy(form.userId) then Outcome(st, 400, None)
      else if !Truthy(form.taskId) && !Truthy(form.projectId) then Outcome(st, 400, None)
      else
        var a := Record(f, form, attachmentId, now);
        if !Attachments.ValidAttachment(a) then Outcome(st, 500, None)
        else
          var d := Details(a, form, names);
          var logged := Activity.LogActivity(st.log, form.userId, "attachment_added", "success", d.0, d.1, None, now);
          assert "attachment_added" in Activity.ActivityTypes;
          Outcome(Store(st.attachments + [a], logged.log, Announce(st.io, form)), 200, Some(a))
  }

  /** An uploaded attachment named after a task appears in that task's
      listing. */
  lemma UploadedToTaskIsListed(st: Store, f: File, form: Form, names: Names, attachmentId: string, now: int,
                               tasks: seq<Attachments.TaskRef>)
    requires UploadAttachment(st, Some(f), form, names, attachmentId, now).status == 200
    requires Truthy(form.taskId)
    ensures var r := UploadAttachment(st, Some(f), form, names, attachmentId, now);
      r.attachment.value in
        Attachments.ListTaskAttachments(Attachments.Store(r.store.attachments, tasks, r.store.io), form.taskId.value)
  {
  }
}
